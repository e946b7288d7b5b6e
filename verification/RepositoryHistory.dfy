/**
 Every history of repository operations, where each operation may be cut off by a crash after
 any number of its file writes.
 */
module RepositoryHistory {
  import opened Graphs
  import opened WorkItems
  import opened Repository

  /** An operation of which at most `writes` file writes happen. */
  datatype Event = Event(op: Operation, writes: nat)

  type History = seq<Event>

  function Cut(ws: seq<Write>, k: nat): seq<Write> {
    if k <= |ws| then ws[..k] else ws
  }

  /** The writes that happen before the crash, or all of them. */
  function Done(d: Disk, e: Event): seq<Write> {
    Cut(Writes(d, e.op), e.writes)
  }

  function Step(d: Disk, e: Event): Disk {
    ApplyAll(d, Done(d, e))
  }

  function Run(h: History): Disk {
    if h == [] then EMPTY_DISK else Step(Run(h[..|h| - 1]), h[|h| - 1])
  }

  // ---- The state after each operation, cut off after `k` writes ----

  function Staged2(d: Disk, s: Staging, k: nat): Disk
    requires StagingAllowed(d, s)
  {
    d.(outputs := if k >= 1 then d.outputs[OutputFile(s.root, s.slot) := s.content] else d.outputs,
       manifests := if k >= 2 then d.manifests[s.root := ManifestOf(d, s)] else d.manifests)
  }

  function Verified1(d: Disk, c: Check, k: nat): Disk
    requires CheckPasses(d, c)
  {
    if k >= 1 then d.(receipts := d.receipts[c.root := Receipt(c.ref, d.manifests[c.root].digest)]) else d
  }

  function Created3(d: Disk, f: CandidateFile, text: string, data: CandidateData, k: nat): Disk {
    d.(candidateDirs := if k >= 1 then d.candidateDirs + {f} else d.candidateDirs,
       candidateTexts := if k >= 2 then d.candidateTexts[f := text] else d.candidateTexts,
       candidates := if k >= 3 then d.candidates[f := data] else d.candidates)
  }

  /** A new revision `number` of `text`, cut off after `k` writes. */
  function Published3(d: Disk, key: string, number: nat, text: string, pointer: Current, k: nat): Disk {
    d.(revisions := if k >= 1 then d.revisions[key := RevisionsOf(d, key)[number := text]] else d.revisions,
       current := if k >= 2 then d.current[key := pointer] else d.current,
       projections := if k >= 3 then d.projections[key := text] else d.projections)
  }

  function Projected1(d: Disk, key: string, text: string, k: nat): Disk {
    if k >= 1 then d.(projections := d.projections[key := text]) else d
  }

  lemma CutOne(d: Disk, w: Write, k: nat)
    ensures ApplyAll(d, Cut([w], k)) == if k == 0 then d else Apply(d, w)
  {
    assert Cut([w], k) == if k == 0 then [] else [w];
    OneWrite(d, w);
  }

  lemma CutTwo(d: Disk, v: Write, w: Write, k: nat)
    ensures ApplyAll(d, Cut([v, w], k)) == if k == 0 then d else if k == 1 then Apply(d, v) else Apply(Apply(d, v), w)
    ensures |Cut([v, w], k)| == if k <= 2 then k else 2
  {
    assert Cut([v, w], k) == if k == 0 then [] else if k == 1 then [v] else [v, w];
    OneWrite(d, v);
    TwoWrites(d, v, w);
  }

  lemma CutThree(d: Disk, u: Write, v: Write, w: Write, k: nat)
    ensures ApplyAll(d, Cut([u, v, w], k)) ==
      if k == 0 then d
      else if k == 1 then Apply(d, u)
      else if k == 2 then Apply(Apply(d, u), v)
      else Apply(Apply(Apply(d, u), v), w)
  {
    assert Cut([u, v, w], k) == if k == 0 then [] else if k == 1 then [u] else if k == 2 then [u, v] else [u, v, w];
    OneWrite(d, u);
    TwoWrites(d, u, v);
    ThreeWrites(d, u, v, w);
  }

  lemma StepStaged(d: Disk, e: Event)
    requires e.op.WriteStaged? && StagingAllowed(d, e.op.s)
    ensures Step(d, e) == Staged2(d, e.op.s, e.writes) && |Done(d, e)| == if e.writes <= 2 then e.writes else 2
  {
    var s := e.op.s;
    CutTwo(d, Output(OutputFile(s.root, s.slot), s.content), ManifestJson(s.root, ManifestOf(d, s)), e.writes);
  }

  lemma StepVerified(d: Disk, e: Event)
    requires e.op.VerifyStaged? && CheckPasses(d, e.op.c)
    ensures Step(d, e) == Verified1(d, e.op.c, e.writes) && |Done(d, e)| == if e.writes == 0 then 0 else 1
  {
    CutOne(d, ReceiptJson(e.op.c.root, Receipt(e.op.c.ref, d.manifests[e.op.c.root].digest)), e.writes);
  }

  lemma StepCreated(d: Disk, e: Event)
    requires e.op.CreateCandidate? && CreationAllowed(d, e.op.n)
    ensures Step(d, e)
      == Created3(d, CandidateFile(e.op.n.key, e.op.n.id), e.op.n.content, CreatedData(d, e.op.n), e.writes)
  {
    var n := e.op.n;
    var f := CandidateFile(n.key, n.id);
    CutThree(d, CandidateDir(f), CandidateText(f, n.content), CandidateJson(f, CreatedData(d, n)), e.writes);
  }

  /** The state of a promotion cut off after `k` writes. */
  function Promoted(d: Disk, key: string, id: string, k: nat): Disk
    requires PromotionResult(d, key, id).Ok?
  {
    var c, number := LoadCandidate(d, key, id).value, PromotionResult(d, key, id).value;
    if AlreadyPublished(d, key, id) then Projected1(d, key, c.content, k)
    else Published3(d, key, number, c.content, Current(number, id, c.data.digest), k)
  }

  lemma PublishingWrites(d: Disk, key: string, number: nat, text: string, pointer: Current, k: nat)
    ensures ApplyAll(d, Cut([Revision(key, number, text), CurrentJson(key, pointer), Projection(key, text)], k))
      == Published3(d, key, number, text, pointer, k)
  {
    CutThree(d, Revision(key, number, text), CurrentJson(key, pointer), Projection(key, text), k);
  }

  lemma StepPromoted(d: Disk, e: Event)
    requires e.op.Promote? && PromotionResult(d, e.op.key, e.op.id).Ok?
    ensures Step(d, e) == Promoted(d, e.op.key, e.op.id, e.writes)
  {
    var key, id := e.op.key, e.op.id;
    var c, number := LoadCandidate(d, key, id).value, PromotionResult(d, key, id).value;
    assert Writes(d, e.op) == PromotionWrites(d, key, id);
    CutOne(d, Projection(key, c.content), e.writes);
    PublishingWrites(d, key, number, c.content, Current(number, id, c.data.digest), e.writes);
  }

  // ---- What an operation leaves alone ----

  /** The files an operation may write at all. */
  predicate MayWrite(op: Operation, w: Write) {
    match op
    case WriteStaged(_) => w.Output? || w.ManifestJson?
    case VerifyStaged(_) => w.ReceiptJson?
    case CreateCandidate(_) => w.CandidateDir? || w.CandidateText? || w.CandidateJson?
    case Promote(_, _) => w.Revision? || w.CurrentJson? || w.Projection?
    case SaveArtifact(_, _) => w.Projection?
  }

  lemma WritesStayInKind(d: Disk, e: Event)
    ensures forall i :: 0 <= i < |Done(d, e)| ==> MayWrite(e.op, Done(d, e)[i])
    ensures !Allowed(d, e.op) ==> Done(d, e) == []
  {
  }

  ghost predicate Untouched(op: Operation, d: Disk, d': Disk) {
    && (!op.WriteStaged? ==> d'.outputs == d.outputs && d'.manifests == d.manifests)
    && (!op.VerifyStaged? ==> d'.receipts == d.receipts)
    && (!op.CreateCandidate? ==>
          && d'.candidateDirs == d.candidateDirs && d'.candidateTexts == d.candidateTexts
          && d'.candidates == d.candidates)
    && (!op.Promote? ==> d'.revisions == d.revisions && d'.current == d.current)
  }

  lemma OneWriteInKind(d: Disk, op: Operation, w: Write)
    requires MayWrite(op, w)
    ensures Untouched(op, d, Apply(d, w))
  {
  }

  lemma {:induction false} WritingInKind(d: Disk, op: Operation, ws: seq<Write>)
    requires forall i :: 0 <= i < |ws| ==> MayWrite(op, ws[i])
    ensures Untouched(op, d, ApplyAll(d, ws))
  {
    if ws != [] {
      WritingInKind(d, op, ws[..|ws| - 1]);
      OneWriteInKind(ApplyAll(d, ws[..|ws| - 1]), op, ws[|ws| - 1]);
    }
  }

  lemma StepUntouched(d: Disk, e: Event)
    ensures Untouched(e.op, d, Step(d, e))
    ensures !Allowed(d, e.op) ==> Step(d, e) == d && Done(d, e) == []
  {
    WritesStayInKind(d, e);
    WritingInKind(d, e.op, Done(d, e));
  }

  // ---- What every step keeps ----

  /** Revisions are numbered from one without a gap. */
  ghost predicate RevisionsNumbered(d: Disk) {
    forall key, n :: n in RevisionsOf(d, key) <==> 1 <= n <= |RevisionsOf(d, key)|
  }

  /** `current.json` is absent or names an existing revision with the recorded digest. */
  ghost predicate CurrentNamesRevision(d: Disk) {
    forall key :: key in d.current ==>
      d.current[key].revision in RevisionsOf(d, key)
        && Digest(RevisionsOf(d, key)[d.current[key].revision]) == d.current[key].digest
  }

  /** Revisions are read back as they were written. */
  ghost predicate RevisionsPlain(d: Disk) {
    forall key, n :: n in RevisionsOf(d, key) ==> Plain(RevisionsOf(d, key)[n])
  }

  /** A described candidate has its text, and its directory is taken. */
  ghost predicate CandidatesIntact(d: Disk) {
    && (forall f :: f in d.candidates
          ==> f in d.candidateTexts && d.candidates[f].digest == Digest(d.candidateTexts[f]))
    && (forall f :: f in d.candidates || f in d.candidateTexts ==> f in d.candidateDirs)
    && (forall f :: f in d.candidates ==> f.key in KNOWN_ARTIFACTS && SafeId(f.id))
  }

  /** A candidate without issues has sources, all of them staged outputs of its own artifact. */
  ghost predicate SourcesStaged(key: string, c: CandidateData) {
    && c.sources != [] && |c.sourceDigests| == |c.sources|
    && forall i :: 0 <= i < |c.sources| ==> c.sources[i].Staged? && c.sources[i].key == key
  }

  ghost predicate CleanCandidatesStaged(d: Disk) {
    forall f :: f in d.candidates && d.candidates[f].issues == [] ==> SourcesStaged(f.key, d.candidates[f])
  }

  ghost predicate Invariant(d: Disk) {
    RevisionsNumbered(d) && RevisionsPlain(d) && CurrentNamesRevision(d) && CandidatesIntact(d)
      && CleanCandidatesStaged(d)
  }

  lemma {:induction false} CleanSources(d: Disk, key: string, sources: seq<ArtifactRef>)
    requires IssuesOf(d, key, sources) == []
    ensures forall i :: 0 <= i < |sources| ==> Usable(d, key, sources[i])
    ensures VersionsHold(d, sources, UsableDigests(d, key, sources))
  {
    if sources != [] {
      var init, last := sources[..|sources| - 1], sources[|sources| - 1];
      CleanSources(d, key, init);
      assert forall i :: 0 <= i < |init| ==> sources[i] == init[i];
    }
  }

  /** What a finished creation without issues records is true at that moment. */
  lemma CreatedSourcesHold(d: Disk, n: Creation)
    requires CreationAllowed(d, n) && CreatedData(d, n).issues == []
    ensures SourcesStaged(n.key, CreatedData(d, n)) && SourcesCurrent(d, CreatedData(d, n))
  {
    var none := if n.sources == [] then [NoStagedOutputs] else [];
    assert |CreatedData(d, n).issues| == |IssuesOf(d, n.key, n.sources)| + |none|;
    CleanSources(d, n.key, n.sources);
  }

  lemma NumberedOneMore(m: map<nat, string>, text: string)
    requires forall n :: n in m <==> 1 <= n <= |m|
    ensures var m' := m[|m| + 1 := text];
      |m'| == |m| + 1 && forall n :: n in m' <==> 1 <= n <= |m'|
  {
    OneMoreKey(m, |m| + 1, text);
  }

  lemma OneMoreKey(m: map<nat, string>, n: nat, text: string)
    requires n !in m
    ensures |m[n := text]| == |m| + 1
  {
    assert m[n := text].Keys == m.Keys + {n};
    assert |m[n := text]| == |m[n := text].Keys| && |m| == |m.Keys|;
  }

  lemma AddRevision(d: Disk, key: string, text: string, pointer: Current, k: nat)
    requires RevisionsNumbered(d)
    requires pointer.revision == |RevisionsOf(d, key)| + 1
    ensures var d' := Published3(d, key, pointer.revision, text, pointer, k);
      && pointer.revision !in RevisionsOf(d, key)
      && RevisionsNumbered(d')
      && |RevisionsOf(d', key)| == |RevisionsOf(d, key)| + if k >= 1 then 1 else 0
  {
    var d' := Published3(d, key, pointer.revision, text, pointer, k);
    if k == 0 {
      SameRevisionFiles(d, d');
    } else {
      NumberedOneMore(RevisionsOf(d, key), text);
      assert RevisionsOf(d', key) == RevisionsOf(d, key)[pointer.revision := text];
      assert forall q :: q != key ==> RevisionsOf(d', q) == RevisionsOf(d, q);
    }
  }

  lemma SameRevisionFiles(d: Disk, d': Disk)
    requires d'.revisions == d.revisions
    ensures forall key :: RevisionsOf(d', key) == RevisionsOf(d, key)
    ensures RevisionsNumbered(d) ==> RevisionsNumbered(d')
  {
  }

  lemma PointAtRevision(d: Disk, key: string, text: string, pointer: Current, k: nat)
    requires RevisionsNumbered(d) && RevisionsPlain(d) && CurrentNamesRevision(d)
    requires pointer.revision == |RevisionsOf(d, key)| + 1 && pointer.digest == Digest(text) && Plain(text)
    ensures RevisionsPlain(Published3(d, key, pointer.revision, text, pointer, k))
    ensures CurrentNamesRevision(Published3(d, key, pointer.revision, text, pointer, k))
  {
    var d' := Published3(d, key, pointer.revision, text, pointer, k);
    forall q
      ensures forall n :: n in RevisionsOf(d', q) ==> Plain(RevisionsOf(d', q)[n])
      ensures q in d'.current ==>
        d'.current[q].revision in RevisionsOf(d', q)
          && Digest(RevisionsOf(d', q)[d'.current[q].revision]) == d'.current[q].digest
    {
      if q != key {
        assert RevisionsOf(d', q) == RevisionsOf(d, q);
      }
    }
  }

  lemma SameRevisions(d: Disk, d': Disk)
    requires d'.revisions == d.revisions && d'.current == d.current
    ensures RevisionsNumbered(d) ==> RevisionsNumbered(d')
    ensures RevisionsPlain(d) ==> RevisionsPlain(d')
    ensures CurrentNamesRevision(d) ==> CurrentNamesRevision(d')
  {
    assert forall key :: RevisionsOf(d', key) == RevisionsOf(d, key);
  }

  lemma SameCandidates(d: Disk, d': Disk)
    requires d'.candidates == d.candidates && d'.candidateTexts == d.candidateTexts
      && d'.candidateDirs == d.candidateDirs
    ensures CandidatesIntact(d) ==> CandidatesIntact(d')
    ensures CleanCandidatesStaged(d) ==> CleanCandidatesStaged(d')
  {
  }

  /** What the candidate of an allowed promotion is. */
  lemma PromotedCandidate(d: Disk, key: string, id: string)
    requires CandidatesIntact(d) && CleanCandidatesStaged(d) && PromotionResult(d, key, id).Ok?
    ensures var c := LoadCandidate(d, key, id).value;
      && c.file == CandidateFile(key, id) && c.file in d.candidates && c.data == d.candidates[c.file]
      && c.data.digest == Digest(c.content) && c.data.issues == [] && Plain(c.content)
      && SourcesStaged(key, c.data) && SourcesCurrent(d, c.data) && key in KNOWN_ARTIFACTS
  {
    ReadBackKeepsPlain(d.candidateTexts[CandidateFile(key, id)]);
  }

  lemma PromotionKeepsInvariant(d: Disk, key: string, id: string, k: nat)
    requires Invariant(d) && PromotionResult(d, key, id).Ok?
    ensures Invariant(Promoted(d, key, id, k))
  {
    PromotedCandidate(d, key, id);
    var c, number := LoadCandidate(d, key, id).value, PromotionResult(d, key, id).value;
    SameCandidates(d, Promoted(d, key, id, k));
    if AlreadyPublished(d, key, id) {
      SameRevisions(d, Promoted(d, key, id, k));
    } else {
      AddRevision(d, key, c.content, Current(number, id, c.data.digest), k);
      PointAtRevision(d, key, c.content, Current(number, id, c.data.digest), k);
    }
  }

  lemma CreationKeepsCandidates(d: Disk, n: Creation, k: nat)
    requires CandidatesIntact(d) && CleanCandidatesStaged(d) && CreationAllowed(d, n)
    ensures var d' := Created3(d, CandidateFile(n.key, n.id), n.content, CreatedData(d, n), k);
      CandidatesIntact(d') && CleanCandidatesStaged(d')
  {
    var data := CreatedData(d, n);
    if data.issues == [] {
      CreatedSourcesHold(d, n);
    }
    AddCandidate(d, CandidateFile(n.key, n.id), n.content, data, k);
  }

  lemma AddCandidate(d: Disk, f: CandidateFile, text: string, data: CandidateData, k: nat)
    requires CandidatesIntact(d) && CleanCandidatesStaged(d) && f !in d.candidateDirs
    requires f.key in KNOWN_ARTIFACTS && SafeId(f.id) && data.digest == Digest(text)
    requires data.issues == [] ==> SourcesStaged(f.key, data)
    ensures CandidatesIntact(Created3(d, f, text, data, k)) && CleanCandidatesStaged(Created3(d, f, text, data, k))
  {
  }

  lemma StepKeepsInvariant(d: Disk, e: Event)
    requires Invariant(d)
    ensures Invariant(Step(d, e))
  {
    StepUntouched(d, e);
    if Allowed(d, e.op) && e.op.Promote? {
      StepPromoted(d, e);
      PromotionKeepsInvariant(d, e.op.key, e.op.id, e.writes);
    } else if Allowed(d, e.op) && e.op.CreateCandidate? {
      SameRevisions(d, Step(d, e));
      StepCreated(d, e);
      CreationKeepsCandidates(d, e.op.n, e.writes);
    } else {
      SameRevisions(d, Step(d, e));
      SameCandidates(d, Step(d, e));
    }
  }

  /** At every crash point of every history the published state is consistent. */
  lemma {:induction false} RunKeepsInvariant(h: History)
    ensures Invariant(Run(h))
  {
    if h != [] {
      RunKeepsInvariant(h[..|h| - 1]);
      StepKeepsInvariant(Run(h[..|h| - 1]), h[|h| - 1]);
    }
  }

  // ---- What never changes once written ----

  /** Every revision of `d` is still there, with the same content. */
  ghost predicate RevisionsPreserved(d: Disk, d': Disk) {
    forall key, n :: n in RevisionsOf(d, key)
      ==> n in RevisionsOf(d', key) && RevisionsOf(d', key)[n] == RevisionsOf(d, key)[n]
  }

  lemma StepPreservesRevisions(d: Disk, e: Event)
    requires Invariant(d)
    ensures RevisionsPreserved(d, Step(d, e))
  {
    StepUntouched(d, e);
    if Allowed(d, e.op) && e.op.Promote? {
      StepPromoted(d, e);
      PromotionPreservesRevisions(d, e.op.key, e.op.id, e.writes);
    } else {
      SameRevisionsPreserved(d, Step(d, e));
    }
  }

  lemma SameRevisionsPreserved(d: Disk, d': Disk)
    requires d'.revisions == d.revisions
    ensures RevisionsPreserved(d, d')
  {
    assert forall key :: RevisionsOf(d', key) == RevisionsOf(d, key);
  }

  lemma PromotionPreservesRevisions(d: Disk, key: string, id: string, k: nat)
    requires Invariant(d) && PromotionResult(d, key, id).Ok?
    ensures RevisionsPreserved(d, Promoted(d, key, id, k))
  {
    var c, number := LoadCandidate(d, key, id).value, PromotionResult(d, key, id).value;
    if AlreadyPublished(d, key, id) {
      SameRevisionsPreserved(d, Promoted(d, key, id, k));
    } else {
      var d' := Promoted(d, key, id, k);
      AddRevision(d, key, c.content, Current(number, id, c.data.digest), k);
      forall q, n | n in RevisionsOf(d, q)
        ensures n in RevisionsOf(d', q) && RevisionsOf(d', q)[n] == RevisionsOf(d, q)[n]
      {
        assert q != key ==> RevisionsOf(d', q) == RevisionsOf(d, q);
      }
    }
  }

  lemma {:induction false} HistoryPreservesRevisions(h: History, i: nat)
    requires i <= |h|
    ensures RevisionsPreserved(Run(h[..i]), Run(h))
    decreases |h|
  {
    if i == |h| {
      assert h[..i] == h;
    } else {
      var init := h[..|h| - 1];
      HistoryPreservesRevisions(init, i);
      assert init[..i] == h[..i];
      RunKeepsInvariant(init);
      StepPreservesRevisions(Run(init), h[|h| - 1]);
    }
  }

  /** A pinned revision reference reads the same content for the rest of every history. */
  lemma PinnedRevisionNeverChanges(h: History, i: nat, key: string, n: nat)
    requires i <= |h| && LoadRef(Run(h[..i]), Published(key, Some(n))).Ok?
    ensures LoadRef(Run(h), Published(key, Some(n))) == LoadRef(Run(h[..i]), Published(key, Some(n)))
  {
    HistoryPreservesRevisions(h, i);
    assert n in RevisionsOf(Run(h[..i]), key);
  }

  // ---- Promotion ----

  /** Promotion touches nothing that staged sources are read from. */
  lemma SourcesSurvive(d: Disk, d': Disk, c: CandidateData, key: string)
    requires SourcesStaged(key, c) && d'.outputs == d.outputs && d'.manifests == d.manifests && SourcesCurrent(d, c)
    ensures SourcesCurrent(d', c)
  {
    assert forall i :: 0 <= i < |c.sources| ==> LoadRef(d', c.sources[i]) == LoadRef(d, c.sources[i]);
  }

  lemma CandidateSurvivesPromotion(d: Disk, key: string, id: string, k: nat)
    requires Invariant(d) && PromotionResult(d, key, id).Ok?
    ensures var d', c := Promoted(d, key, id, k), LoadCandidate(d, key, id).value;
      LoadCandidate(d', key, id) == Ok(c) && SourcesCurrent(d', c.data)
  {
    PromotedCandidate(d, key, id);
    SourcesSurvive(d, Promoted(d, key, id, k), LoadCandidate(d, key, id).value.data, key);
  }

  lemma PublishedAfter(d: Disk, key: string, id: string, k: nat)
    requires Invariant(d) && PromotionResult(d, key, id).Ok? && k >= 1
    requires k >= 2 || AlreadyPublished(d, key, id)
    ensures var d', c, n := Promoted(d, key, id, k), LoadCandidate(d, key, id).value, PromotionResult(d, key, id).value;
      && key in d'.current && d'.current[key] == Current(n, id, c.data.digest)
      && LoadRef(d', Published(key, Some(n))) == Ok(c.content)
  {
    PromotedCandidate(d, key, id);
    PromotionKeepsInvariant(d, key, id, k);
    ReadBackKeepsPlain(LoadCandidate(d, key, id).value.content);
  }

  /**
   A finished promotion is provable afterwards: the publication evidence of its candidate names
   the revision that the promotion returned.
   */
  lemma FinishedPromotionIsEvident(d: Disk, key: string, id: string)
    requires Invariant(d) && PromotionResult(d, key, id).Ok?
    ensures PublicationEvidence(Step(d, Event(Promote(key, id), 3)), LoadCandidate(d, key, id).value)
      == PromotionResult(d, key, id)
  {
    StepPromoted(d, Event(Promote(key, id), 3));
    CandidateSurvivesPromotion(d, key, id, 3);
    PublishedAfter(d, key, id, 3);
    PromotedCandidate(d, key, id);
    ReadBackKeepsPlain(LoadCandidate(d, key, id).value.content);
  }

  /**
   A promotion that crashed after `k` of its three writes and is retried: past `current.json`
   the retry returns the same revision, adds none, and repairs the projection; before it, the
   retry publishes under a number that no revision has had.
   */
  lemma RetriedPromotion(d: Disk, key: string, id: string, k: nat)
    requires Invariant(d) && PromotionResult(d, key, id).Ok? && !AlreadyPublished(d, key, id) && k <= 3
    ensures var n, c := PromotionResult(d, key, id).value, LoadCandidate(d, key, id).value;
      var d' := Step(d, Event(Promote(key, id), k));
      && PromotionResult(d', key, id) == Ok(if k == 1 then n + 1 else n)
      && (k >= 2 ==> Writes(d', Promote(key, id)) == [Projection(key, c.content)])
      && (k < 2 ==> PromotionResult(d', key, id).value !in RevisionsOf(d', key))
  {
    StepPromoted(d, Event(Promote(key, id), k));
    CandidateSurvivesPromotion(d, key, id, k);
    PromotionKeepsInvariant(d, key, id, k);
    var c, n := LoadCandidate(d, key, id).value, PromotionResult(d, key, id).value;
    var d' := Promoted(d, key, id, k);
    PromotedCandidate(d, key, id);
    if k >= 2 {
      PublishedAfter(d, key, id, k);
    } else {
      AddRevision(d, key, c.content, Current(n, id, c.data.digest), k);
      assert !AlreadyPublished(d', key, id);
    }
  }

  // ---- A retry at any later time ----

  /** The candidate that `current.json` names is described, free of issues and loadable, with the recorded digest. */
  ghost predicate CurrentIsPromoted(d: Disk) {
    forall key :: key in d.current
      ==> PromotedFrom(d, CandidateFile(key, d.current[key].candidateId), d.current[key].digest)
  }

  ghost predicate PromotedFrom(d: Disk, f: CandidateFile, digest: Digest) {
    && f in d.candidates && d.candidates[f].issues == [] && d.candidates[f].digest == digest
    && f in d.candidateTexts && Plain(d.candidateTexts[f])
  }

  lemma PromotionKeepsPromoted(d: Disk, key: string, id: string, k: nat)
    requires Invariant(d) && CurrentIsPromoted(d) && PromotionResult(d, key, id).Ok?
    ensures CurrentIsPromoted(Promoted(d, key, id, k))
  {
    LoadedIsPromotable(d, key, id);
    var c, number := LoadCandidate(d, key, id).value, PromotionResult(d, key, id).value;
    var pointer := Current(number, id, c.data.digest);
    PublishingMovesPointer(d, key, number, c.content, pointer, k);
    ProjectingKeepsPointer(d, key, c.content, k);
    PointerMoves(d, Projected1(d, key, c.content, k), key, pointer);
    PointerMoves(d, Published3(d, key, number, c.content, pointer, k), key, pointer);
  }

  lemma PublishingMovesPointer(d: Disk, key: string, number: nat, text: string, pointer: Current, k: nat)
    ensures var d' := Published3(d, key, number, text, pointer, k);
      && d'.candidates == d.candidates && d'.candidateTexts == d.candidateTexts
      && (d'.current == d.current || d'.current == d.current[key := pointer])
  {
  }

  lemma ProjectingKeepsPointer(d: Disk, key: string, text: string, k: nat)
    ensures var d' := Projected1(d, key, text, k);
      d'.candidates == d.candidates && d'.candidateTexts == d.candidateTexts && d'.current == d.current
  {
  }

  lemma PointerMoves(d: Disk, d': Disk, key: string, pointer: Current)
    requires CurrentIsPromoted(d) && PromotedFrom(d, CandidateFile(key, pointer.candidateId), pointer.digest)
    requires d'.candidates == d.candidates && d'.candidateTexts == d.candidateTexts
    requires d'.current == d.current || d'.current == d.current[key := pointer]
    ensures CurrentIsPromoted(d')
  {
  }

  lemma LoadedIsPromotable(d: Disk, key: string, id: string)
    requires Invariant(d) && PromotionResult(d, key, id).Ok?
    ensures PromotedFrom(d, CandidateFile(key, id), LoadCandidate(d, key, id).value.data.digest)
  {
    PromotedCandidate(d, key, id);
    ReadBackKeepsPlain(d.candidateTexts[CandidateFile(key, id)]);
  }

  lemma StepKeepsPromoted(d: Disk, e: Event)
    requires Invariant(d) && CurrentIsPromoted(d)
    ensures CurrentIsPromoted(Step(d, e))
  {
    StepUntouched(d, e);
    if Allowed(d, e.op) && e.op.Promote? {
      StepPromoted(d, e);
      PromotionKeepsPromoted(d, e.op.key, e.op.id, e.writes);
    } else {
      StepPreservesCandidates(d, e);
    }
  }

  lemma {:induction false} RunKeepsPromoted(h: History)
    ensures CurrentIsPromoted(Run(h))
  {
    if h != [] {
      RunKeepsPromoted(h[..|h| - 1]);
      RunKeepsInvariant(h[..|h| - 1]);
      StepKeepsPromoted(Run(h[..|h| - 1]), h[|h| - 1]);
    }
  }

  /**
   At any time after `current.json` came to name a candidate, whatever was staged, saved, created
   or promoted in between, promoting it again returns the current revision and writes only the
   projection, if and only if its sources are still current. The check of the published digest
   never fails.
   */
  lemma PromotingAgain(h: History, key: string, id: string)
    requires AlreadyPublished(Run(h), key, id)
    ensures CandidateFile(key, id) in Run(h).candidates
    ensures var d, data := Run(h), Run(h).candidates[CandidateFile(key, id)];
      && PromotionResult(d, key, id)
        == (if SourcesCurrent(d, data) then Ok(d.current[key].revision) else Err(Inconsistent))
      && (SourcesCurrent(d, data)
          ==> Writes(d, Promote(key, id)) == [Projection(key, LoadCandidate(d, key, id).value.content)])
      && PublishedIntact(d, key, data.digest)
  {
    RunKeepsInvariant(h);
    RunKeepsPromoted(h);
    PublishedIsIntact(Run(h), key, id);
  }

  lemma PublishedIsIntact(d: Disk, key: string, id: string)
    requires Invariant(d) && CurrentIsPromoted(d) && AlreadyPublished(d, key, id)
    ensures LoadCandidate(d, key, id).Ok? && LoadCandidate(d, key, id).value.data.issues == []
    ensures CandidateFile(key, id) in d.candidates
      && LoadCandidate(d, key, id).value.data == d.candidates[CandidateFile(key, id)]
    ensures PublishedIntact(d, key, d.candidates[CandidateFile(key, id)].digest)
  {
    var f := CandidateFile(key, id);
    assert PromotedFrom(d, f, d.current[key].digest);
    ReadBackKeepsPlain(d.candidateTexts[f]);
    var n := d.current[key].revision;
    assert n in RevisionsOf(d, key) && Plain(RevisionsOf(d, key)[n]);
    ReadBackKeepsPlain(RevisionsOf(d, key)[n]);
  }

  // ---- Where candidates come from ----

  /** Step `i` of the history created the candidate with this description. */
  ghost predicate CreatedAt(h: History, i: nat, f: CandidateFile, data: CandidateData) {
    && i < |h| && h[i].op.CreateCandidate? && h[i].writes >= 3
    && CandidateFile(h[i].op.n.key, h[i].op.n.id) == f
    && CreationAllowed(Run(h[..i]), h[i].op.n) && data == CreatedData(Run(h[..i]), h[i].op.n)
  }

  /** Only a finished creation adds a description, and none is ever changed. */
  lemma StepCandidates(d: Disk, e: Event)
    ensures Step(d, e).candidates ==
      if e.op.CreateCandidate? && CreationAllowed(d, e.op.n) && e.writes >= 3
      then d.candidates[CandidateFile(e.op.n.key, e.op.n.id) := CreatedData(d, e.op.n)] else d.candidates
  {
    StepUntouched(d, e);
    if e.op.CreateCandidate? && CreationAllowed(d, e.op.n) {
      StepCreated(d, e);
    }
  }

  lemma {:induction false} CandidateOrigin(h: History, f: CandidateFile)
    requires f in Run(h).candidates
    ensures exists i: nat :: CreatedAt(h, i, f, Run(h).candidates[f])
  {
    var init, e := h[..|h| - 1], h[|h| - 1];
    StepCandidates(Run(init), e);
    if e.op.CreateCandidate? && CreationAllowed(Run(init), e.op.n) && e.writes >= 3
      && CandidateFile(e.op.n.key, e.op.n.id) == f {
      assert CreatedAt(h, |h| - 1, f, Run(h).candidates[f]);
    } else {
      CandidateOrigin(init, f);
      var i: nat :| CreatedAt(init, i, f, Run(init).candidates[f]);
      assert init[..i] == h[..i];
      assert CreatedAt(h, i, f, Run(h).candidates[f]);
    }
  }

  /**
   In every history a described candidate was created by some step, and it loads, with the
   content it was created from, if and only if that content has no carriage return.
   */
  lemma DescribedCandidatesLoad(h: History, key: string, id: string)
    requires CandidateFile(key, id) in Run(h).candidates
    ensures exists i: nat :: (
              && CreatedAt(h, i, CandidateFile(key, id), Run(h).candidates[CandidateFile(key, id)])
              && (LoadCandidate(Run(h), key, id).Ok? <==> Plain(h[i].op.n.content))
              && (LoadCandidate(Run(h), key, id).Ok?
                  ==> LoadCandidate(Run(h), key, id).value.content == h[i].op.n.content))
  {
    var f := CandidateFile(key, id);
    RunKeepsInvariant(h);
    CandidateOrigin(h, f);
    var i: nat :| CreatedAt(h, i, f, Run(h).candidates[f]);
    assert Run(h).candidateTexts[f] == h[i].op.n.content;
    ReadBackKeepsPlain(h[i].op.n.content);
  }

  /** Every described candidate of `d` is still there, with the same description and text. */
  ghost predicate CandidatesPreserved(d: Disk, d': Disk) {
    forall f :: f in d.candidates ==>
      && f in d'.candidates && d'.candidates[f] == d.candidates[f]
      && f in d.candidateTexts && f in d'.candidateTexts && d'.candidateTexts[f] == d.candidateTexts[f]
  }

  lemma StepPreservesCandidates(d: Disk, e: Event)
    requires CandidatesIntact(d)
    ensures CandidatesPreserved(d, Step(d, e))
  {
    StepUntouched(d, e);
    if e.op.CreateCandidate? && CreationAllowed(d, e.op.n) {
      StepCreated(d, e);
    }
  }

  lemma {:induction false} HistoryPreservesCandidates(h: History, i: nat)
    requires i <= |h|
    ensures CandidatesPreserved(Run(h[..i]), Run(h))
    decreases |h|
  {
    RunKeepsInvariant(h);
    if i == |h| {
      assert h[..i] == h;
    } else {
      var init := h[..|h| - 1];
      HistoryPreservesCandidates(init, i);
      assert init[..i] == h[..i];
      RunKeepsInvariant(init);
      StepPreservesCandidates(Run(init), h[|h| - 1]);
    }
  }

  /**
   One described candidate with a carriage return blocks its artifact for the rest of every
   history: the lookup loads every described candidate, so from then on it refuses whatever it
   is asked for.
   */
  lemma LookupStaysBlocked(h: History, i: nat, f: CandidateFile)
    requires i <= |h| && f in Run(h[..i]).candidates && f in Run(h[..i]).candidateTexts
      && !Plain(Run(h[..i]).candidateTexts[f])
    ensures !AllLoad(Run(h), f.key)
  {
    HistoryPreservesCandidates(h, i);
    RunKeepsInvariant(h);
    ReadBackKeepsPlain(Run(h).candidateTexts[f]);
    assert f == CandidateFile(f.key, f.id);
    assert LoadCandidate(Run(h), f.key, f.id).Err?;
  }

  /** What a finished creation can be loaded as: everything, or nothing if the content has a carriage return. */
  lemma CreatedThenLoaded(d: Disk, n: Creation)
    requires CreationAllowed(d, n)
    ensures LoadCandidate(Step(d, Event(CreateCandidate(n), 3)), n.key, n.id) ==
      if Plain(n.content) then Ok(Candidate(CandidateFile(n.key, n.id), CreatedData(d, n), n.content))
      else Err(Inconsistent)
  {
    StepCreated(d, Event(CreateCandidate(n), 3));
    ReadBackKeepsPlain(n.content);
  }

  /** A run that shows it: the candidate is described but never loads, and its artifact is blocked. */
  lemma CarriageReturnBlocks()
    ensures var n := Creation("architecture", "cand-1", Root("trace", "item"), "a\r\nb", [], None, None);
      var d := Run([Event(CreateCandidate(n), 3)]);
      && CandidateFile(n.key, n.id) in d.candidates
      && LoadCandidate(d, n.key, n.id) == Err(Inconsistent)
      && !AllLoad(d, "architecture")
  {
    var n := Creation("architecture", "cand-1", Root("trace", "item"), "a\r\nb", [], None, None);
    var e := Event(CreateCandidate(n), 3);
    assert [e][..0] == [];
    assert n.content[0] == 'a' && n.content[1] == '\r' && !IsSpace('a');
    assert !Blank(n.content) by {
      assert 'a' in n.content;
    }
    StepCreated(EMPTY_DISK, e);
    CreatedThenLoaded(EMPTY_DISK, n);
  }

  /**
   In every history a promotion succeeds only for a candidate that some earlier step created
   from at least one source, all of them staged outputs of the same artifact, and each source
   still reads exactly what it read at that step.
   */
  lemma PromotionSourcesUnchanged(h: History, key: string, id: string)
    requires PromotionResult(Run(h), key, id).Ok?
    ensures exists i: nat, data :: (
              && CreatedAt(h, i, CandidateFile(key, id), data) && SourcesStaged(key, data)
              && forall k :: 0 <= k < |data.sources| ==>
                LoadRef(Run(h[..i]), data.sources[k]).Ok?
                  && LoadRef(Run(h), data.sources[k]) == LoadRef(Run(h[..i]), data.sources[k]))
  {
    var f := CandidateFile(key, id);
    RunKeepsInvariant(h);
    PromotedCandidate(Run(h), key, id);
    CandidateOrigin(h, f);
    var data := Run(h).candidates[f];
    var i: nat :| CreatedAt(h, i, f, data);
    CreatedSourcesHold(Run(h[..i]), h[i].op.n);
    forall k | 0 <= k < |data.sources|
      ensures LoadRef(Run(h[..i]), data.sources[k]).Ok?
        && LoadRef(Run(h), data.sources[k]) == LoadRef(Run(h[..i]), data.sources[k])
    {
      assert HasVersion(Run(h[..i]), data.sources[k], data.sourceDigests[k]);
      assert HasVersion(Run(h), data.sources[k], data.sourceDigests[k]);
    }
  }

  // ---- Staged reads fail closed ----

  /** The staging that wrote the manifest a WorkItem has now. */
  function LastStaged(h: History, root: Root): Option<Staging> {
    if h == [] then None else
      var init, e := h[..|h| - 1], h[|h| - 1];
      if e.op.WriteStaged? && e.op.s.root == root && |Done(Run(init), e)| == 2 then Some(e.op.s)
      else LastStaged(init, root)
  }

  /** The text last written to an output file, whether or not its manifest followed. */
  function LastOutput(h: History, file: OutputFile): Option<string> {
    if h == [] then None else
      var init, e := h[..|h| - 1], h[|h| - 1];
      if e.op.WriteStaged? && OutputFile(e.op.s.root, e.op.s.slot) == file && |Done(Run(init), e)| >= 1
        then Some(e.op.s.content)
      else LastOutput(init, file)
  }

  ghost predicate ManifestIsOf(d: Disk, root: Root, s: Option<Staging>) {
    && (root in d.manifests <==> s.Some?)
    && (s.Some? ==> d.manifests[root].key == s.value.key && d.manifests[root].slot == s.value.slot
                    && d.manifests[root].digest == Digest(s.value.content))
  }

  ghost predicate OutputIs(d: Disk, file: OutputFile, text: Option<string>) {
    (file in d.outputs <==> text.Some?) && (text.Some? ==> d.outputs[file] == text.value)
  }

  lemma {:induction false} FilesAreLastWritten(h: History, root: Root, slot: string)
    ensures ManifestIsOf(Run(h), root, LastStaged(h, root))
    ensures OutputIs(Run(h), OutputFile(root, slot), LastOutput(h, OutputFile(root, slot)))
  {
    if h != [] {
      var init, e := h[..|h| - 1], h[|h| - 1];
      FilesAreLastWritten(init, root, slot);
      if e.op.WriteStaged? && StagingAllowed(Run(init), e.op.s) {
        StepStaged(Run(init), e);
      } else {
        StepUntouched(Run(init), e);
      }
    }
  }

  lemma StagedReadIff(d: Disk, key: string, root: Root, slot: string, content: string, s: Option<Staging>,
                      text: Option<string>)
    requires ManifestIsOf(d, root, s) && OutputIs(d, OutputFile(root, slot), text)
    ensures LoadRef(d, Staged(key, root.traceId, root.workItemId, slot)) == Ok(content) <==>
      && key in KNOWN_ARTIFACTS
      && s.Some? && s.value.key == key && s.value.content == content
      && text.Some? && ReadBack(text.value) == content
  {
    assert Root(root.traceId, root.workItemId) == root;
  }

  /**
   A staged read succeeds if and only if the slot's last text reads back as the text of the very
   staging that wrote the manifest in force, for the same artifact; it then returns that text.
   A crash between the two writes, another slot's manifest, or a carriage return in the staged
   text makes it raise, unless what is read back is that text after all.
   */
  lemma StagedReadFailsClosed(h: History, key: string, root: Root, slot: string, content: string)
    ensures var staged, text := LastStaged(h, root), LastOutput(h, OutputFile(root, slot));
      LoadRef(Run(h), Staged(key, root.traceId, root.workItemId, slot)) == Ok(content) <==>
        && key in KNOWN_ARTIFACTS
        && staged.Some? && staged.value.key == key && staged.value.content == content
        && text.Some? && ReadBack(text.value) == content
  {
    FilesAreLastWritten(h, root, slot);
    StagedReadIff(Run(h), key, root, slot, content, LastStaged(h, root), LastOutput(h, OutputFile(root, slot)));
  }

  /** What a finished staging reads back as: its text, or nothing if the text has a carriage return. */
  lemma StagedThenRead(d: Disk, s: Staging)
    requires StagingAllowed(d, s)
    ensures LoadRef(Step(d, Event(WriteStaged(s), 2)), Staged(s.key, s.root.traceId, s.root.workItemId, s.slot)) ==
      if Plain(s.content) then Ok(s.content) else Err(Inconsistent)
  {
    StepStaged(d, Event(WriteStaged(s), 2));
    ReadBackKeepsPlain(s.content);
    assert Root(s.root.traceId, s.root.workItemId) == s.root;
  }

  /** The text that the last finished verification of a WorkItem accepted. */
  function LastVerified(h: History, root: Root): Option<string> {
    if h == [] then None else
      var init, e := h[..|h| - 1], h[|h| - 1];
      if e.op.VerifyStaged? && e.op.c.root == root && |Done(Run(init), e)| == 1
        then Some(LoadRef(Run(init), e.op.c.ref).value)
      else LastVerified(init, root)
  }

  lemma AcceptedDigest(d: Disk, c: Check)
    requires CheckPasses(d, c)
    ensures d.manifests[c.root].digest == Digest(LoadRef(d, c.ref).value)
  {
  }

  lemma {:induction false} ReceiptIsLastVerified(h: History, root: Root)
    ensures root in Run(h).receipts <==> LastVerified(h, root).Some?
    ensures root in Run(h).receipts ==> Run(h).receipts[root].digest == Digest(LastVerified(h, root).value)
  {
    if h != [] {
      var init, e := h[..|h| - 1], h[|h| - 1];
      ReceiptIsLastVerified(init, root);
      if e.op.VerifyStaged? && CheckPasses(Run(init), e.op.c) {
        StepVerified(Run(init), e);
        AcceptedDigest(Run(init), e.op.c);
      } else {
        StepUntouched(Run(init), e);
      }
    }
  }

  /** A receipt loads if and only if the staged output can be read and is what verification last accepted. */
  lemma ReceiptLoadsIffVerified(h: History, ref: ArtifactRef)
    requires ref.Staged?
    ensures LoadReceipt(Run(h), ref).Ok? <==>
      LoadRef(Run(h), ref).Ok? && LastVerified(h, Root(ref.traceId, ref.workItemId)) == Some(LoadRef(Run(h), ref).value)
  {
    ReceiptIsLastVerified(h, Root(ref.traceId, ref.workItemId));
  }
}
