/** What a sweep over the stored records changes. */
module Sweeps {
  import opened Domain
  import opened ClassifierState
  import E = EvidenceStore

  /** The CURRENT records that satisfy `p` are STALE, and no other record has changed. */
  ghost predicate Staled(e: E.Evidence, f: E.Evidence, p: EvidenceRecord -> bool) {
    && f == e.(byId := f.byId)
    && f.byId.Keys == e.byId.Keys
    && forall id | id in e.byId ::
         var r := e.byId[id];
         if r.state == EvidenceCurrent && p(r) then
           f.byId[id].state == EvidenceStale && f.byId[id] == r.(state := EvidenceStale, stateReason := f.byId[id].stateReason)
         else
           f.byId[id] == r
  }

  lemma MarkStaleMeans(e: E.Evidence, p: EvidenceRecord -> bool, reason: string)
    ensures Staled(e, E.MarkStale(e, p, reason), p)
  {
  }

  lemma StaledAlike(e: E.Evidence, f: E.Evidence, p: EvidenceRecord -> bool, q: EvidenceRecord -> bool)
    requires Staled(e, f, p) && forall r :: p(r) <==> q(r)
    ensures Staled(e, f, q)
  {
  }

  lemma StaledNone(e: E.Evidence, p: EvidenceRecord -> bool)
    requires forall r :: !p(r)
    ensures Staled(e, e, p)
  {
  }

  lemma StaleContractsMeans(e: E.Evidence, ids: set<string>, reason: string -> string)
    ensures Staled(e, StaleContracts(e, ids, reason), (r: EvidenceRecord) => r.contract in ids)
  {
  }
}
