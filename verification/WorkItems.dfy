/** The entities that plans, recovery and the artifact repository share. */
module WorkItems {
  import opened Graphs

  datatype Option<+T> = None | Some(value: T) {
    function GetOr(default: T): T {
      if Some? then value else default
    }
  }

  function Max(a: int, b: int): int {
    if a >= b then a else b
  }

  /** A readable artifact version. Revision `rev-NNN` is modelled by its number. */
  datatype ArtifactRef =
    | Staged(key: string, traceId: string, workItemId: Id, slot: string)
    | Published(key: string, revision: Option<nat>)

  datatype ExecutionMode = Exclusive | Partitioned | Integration | QualityGate

  datatype WorkItem = WorkItem(
    id: Id,
    agentId: string,
    outputKey: string,
    artifactKey: string,
    dependencies: seq<Id>,
    mode: ExecutionMode,
    inputRefs: seq<ArtifactRef>,
    slot: Option<string>,
    publishTarget: Option<string>,
    candidateFrom: Option<Id>,
    stageId: Option<string>,
    requiredTools: seq<string>,
    ownedFiles: seq<string>,
    contractDigest: string)

  datatype Status = Completed | NeedsCapability | NeedsReplan | Failed

  datatype NodeResult = NodeResult(itemId: Id, agentId: string, status: Status, content: Option<string>)

  function DependencySet(item: WorkItem): set<Id> {
    Elements(item.dependencies)
  }

  function Ids(items: seq<WorkItem>): set<Id> {
    set i | 0 <= i < |items| :: items[i].id
  }

  predicate UniqueIds(items: seq<WorkItem>) {
    forall i, j :: 0 <= i < j < |items| ==> items[i].id != items[j].id
  }

  /** The dictionary from a WorkItem id to its dependency ids; an edge points at a dependency. */
  function DependencyGraph(items: seq<WorkItem>): Graph {
    if items == [] then map[] else
      var last := items[|items| - 1];
      DependencyGraph(items[..|items| - 1])[last.id := DependencySet(last)]
  }

  lemma {:induction false} DependencyGraphKeys(items: seq<WorkItem>)
    ensures DependencyGraph(items).Keys == Ids(items)
  {
    if items != [] {
      var init := items[..|items| - 1];
      DependencyGraphKeys(init);
      forall n | n in Ids(items) ensures n in DependencyGraph(items) {
        var i :| 0 <= i < |items| && items[i].id == n;
        assert i < |init| ==> init[i].id in Ids(init);
      }
    }
  }

  lemma {:induction false} DependencyGraphAt(items: seq<WorkItem>, i: nat)
    requires UniqueIds(items) && i < |items|
    ensures items[i].id in DependencyGraph(items)
    ensures DependencyGraph(items)[items[i].id] == DependencySet(items[i])
  {
    if i < |items| - 1 {
      DependencyGraphAt(items[..|items| - 1], i);
    }
  }

  /** `plan.work_item(id)`: the first item with that id. */
  function Find(items: seq<WorkItem>, id: Id): (r: Option<WorkItem>)
    ensures r.Some? <==> id in Ids(items)
    ensures r.Some? ==> r.value in items && r.value.id == id
  {
    if items == [] then None
    else if items[0].id == id then Some(items[0])
    else
      assert forall i :: 0 < i < |items| ==> items[i] == items[1..][i - 1];
      Find(items[1..], id)
  }

  lemma FindAt(items: seq<WorkItem>, i: nat)
    requires UniqueIds(items) && i < |items|
    ensures Find(items, items[i].id) == Some(items[i])
  {
    var found := Find(items, items[i].id);
    assert items[i].id in Ids(items);
    var j :| 0 <= j < |items| && items[j] == found.value;
  }

  /** The characters that Python's `str.strip` removes. */
  predicate IsSpace(c: char) {
    || c == ' ' || '\t' <= c <= '\r' || '\U{1c}' <= c <= '\U{1f}'
      || c in {'\U{85}', '\U{a0}', '\U{1680}', '\U{202f}', '\U{205f}', '\U{3000}'}
    || '\U{2000}' <= c <= '\U{200a}' || '\U{2028}' <= c <= '\U{2029}'
  }

  /** Nothing is left after `strip()`. */
  predicate Blank(s: string) {
    forall c :: c in s ==> IsSpace(c)
  }

  /** A text of ASCII white space is blank, and one with a visible ASCII character is not. */
  lemma AsciiBlanks(s: string)
    ensures (forall c :: c in s ==> c == ' ' || c == '\t' || c == '\n' || c == '\r') ==> Blank(s)
    ensures (exists c :: c in s && '!' <= c <= '~') ==> !Blank(s)
  {
  }
}
