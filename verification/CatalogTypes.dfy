/** The values of the context catalog: entries, snapshots, and the predicates that say which
    part of an entry is the registered source and which part is a generated description. */
module CatalogTypes {
  /** A digest. The empty string stands for "no digest", as in the JSON records. */
  type Hash = string
  type ProjectId = string

  datatype Evidence = Evidence(kind: string, text: string)

  datatype ReviewStatus = Approved | Declared | Draft | Unresolved

  datatype Provenance = NoProvenance | ClientDeclared | ManualSource | ModelDerived

  /** The nine editable fields that a restore copies from a historical entry. */
  datatype Description = Description(
    summary: string,
    aliases: seq<string>,
    ownedComponents: seq<string>,
    boundaries: seq<string>,
    uses: seq<string>,
    sharedWith: seq<string>,
    positiveExamples: seq<string>,
    negativeExamples: seq<string>,
    evidenceRefs: seq<string>)

  datatype Entry = Entry(
    namespace: string,
    tag: string,
    name: string,
    desc: Description,
    status: ReviewStatus,
    projectId: ProjectId,
    projectKey: string,
    owner: string,
    evidence: seq<Evidence>,
    source: Provenance,
    declaredSummary: string)

  datatype Snapshot = Snapshot(version: string, parent: Hash, createdAt: string, entries: seq<Entry>)

  const MAX_ENTRIES := 32

  /** Publication and read context accept only reviewed or client-declared entries. */
  predicate Eligible(e: Entry) {
    e.status == Approved || e.status == Declared
  }

  predicate AllEligible(entries: seq<Entry>) {
    forall i :: 0 <= i < |entries| ==> Eligible(entries[i])
  }

  predicate UniqueKeys(entries: seq<Entry>) {
    forall i, j :: 0 <= i < j < |entries| ==>
      !(entries[i].namespace == entries[j].namespace && entries[i].tag == entries[j].tag)
  }

  /** No project id occurs twice. The catalog validation does not enforce this. */
  predicate UniqueProjects(entries: seq<Entry>) {
    forall i, j :: 0 <= i < j < |entries| && entries[i].projectId != "" ==>
      entries[i].projectId != entries[j].projectId
  }

  /** The summary that the client declared, however much the description has been regenerated. */
  function EffectiveDeclaredSource(e: Entry): string {
    if e.declaredSummary != "" then e.declaredSummary
    else if e.source == ClientDeclared then e.desc.summary
    else ""
  }

  predicate SameReviewProvenance(a: Provenance, b: Provenance) {
    a == b || (a == ClientDeclared && b == ModelDerived) || (a == ModelDerived && b == ClientDeclared)
  }

  predicate SameStableProjectIdentity(a: Entry, b: Entry) {
    && a.namespace == b.namespace && a.tag == b.tag && a.name == b.name
    && a.projectId != "" && a.projectId == b.projectId
    && a.projectKey == b.projectKey && a.owner == b.owner
  }

  predicate SameReviewSourceIdentity(a: Entry, b: Entry) {
    && a.namespace == b.namespace && a.tag == b.tag && a.name == b.name
    && a.projectId == b.projectId && a.projectKey == b.projectKey && a.owner == b.owner
    && a.status == b.status
    && EffectiveDeclaredSource(a) == EffectiveDeclaredSource(b)
    && SameReviewProvenance(a.source, b.source)
    && a.evidence == b.evidence
  }

  /** Index of the first entry of a project, or -1. */
  function EntryIndex(entries: seq<Entry>, id: ProjectId): (i: int)
    ensures -1 <= i < |entries|
    ensures i >= 0 ==> entries[i].projectId == id && forall j :: 0 <= j < i ==> entries[j].projectId != id
    ensures i < 0 ==> forall j :: 0 <= j < |entries| ==> entries[j].projectId != id
  {
    EntryIndexFrom(entries, id, 0)
  }

  function EntryIndexFrom(entries: seq<Entry>, id: ProjectId, from: nat): (i: int)
    requires from <= |entries|
    ensures i == -1 || from <= i < |entries|
    ensures i >= 0 ==> entries[i].projectId == id && forall j :: from <= j < i ==> entries[j].projectId != id
    ensures i < 0 ==> forall j :: from <= j < |entries| ==> entries[j].projectId != id
    decreases |entries| - from
  {
    if from == |entries| then -1
    else if entries[from].projectId == id then from
    else EntryIndexFrom(entries, id, from + 1)
  }

  predicate HasProject(entries: seq<Entry>, id: ProjectId) {
    exists i :: 0 <= i < |entries| && entries[i].projectId == id
  }

  /** The first entry of a project. */
  function FirstOf(entries: seq<Entry>, id: ProjectId): Entry
    requires HasProject(entries, id)
  {
    entries[EntryIndex(entries, id)]
  }

  /** A restored entry keeps the current identity and takes the historical description. */
  function RestoreDescription(current: Entry, historical: Entry): Entry {
    current.(desc := historical.desc)
  }
}
