/** Handoffs as values: what a policy issues for a subject, and when it is currently valid. */
module Handoffs {
  import opened Prelude

  datatype Grant = Grant(subject: Text, userId: Text, workerAgentId: Text, tier: Text, tools: seq<Text>,
                         sandboxProfile: Text, requiresApproval: bool)

  datatype Policy = Policy(version: Text, orchestratorId: Text, ttl: int, grants: seq<Grant>)

  predicate Distinct<T(==)>(s: seq<T>) {
    forall i, j :: 0 <= i < j < |s| ==> s[i] != s[j]
  }

  predicate GrantValid(g: Grant) {
    && g.subject != [] && g.userId != [] && g.workerAgentId != [] && g.tier != [] && g.sandboxProfile != []
    && g.tools != [] && [] !in g.tools && Distinct(g.tools)
  }

  predicate PolicyValid(p: Policy) {
    && p.version != [] && p.orchestratorId != [] && 1 <= p.ttl <= 300
    && p.grants != []
    && (forall i :: 0 <= i < |p.grants| ==> GrantValid(p.grants[i]))
    && (forall i, j :: 0 <= i < j < |p.grants| ==> p.grants[i].subject != p.grants[j].subject)
  }

  /** The grant of an authenticated subject; `None` refuses it. */
  function GrantFor(grants: seq<Grant>, subject: Text): (g: Option<Grant>)
    ensures g.Some? ==> g.value in grants && g.value.subject == subject
  {
    if grants == [] then None
    else if grants[0].subject == subject then Some(grants[0])
    else GrantFor(grants[1..], subject)
  }

  /** A validated handoff. Version, payload hash and signature are functions of the rest. */
  datatype Handoff = Handoff(jobId: Text, userId: Text, orchestratorId: Text, workerAgentId: Text, tier: Text,
                             tools: seq<Text>, sandboxProfile: Text, pending: bool, policyVersion: Text,
                             issuedAt: int, expiresAt: int, text: Text)

  /** What trusted policy facts make of one request. */
  function Issued(p: Policy, g: Grant, jobId: Text, text: Text, now: int): Handoff {
    Handoff(jobId, g.userId, p.orchestratorId, g.workerAgentId, g.tier, g.tools, g.sandboxProfile,
            g.requiresApproval, p.version, now, now + p.ttl, text)
  }

  predicate Current(h: Handoff, now: int) { h.issuedAt <= now < h.expiresAt }

  /** A handoff whose every field is what the trusted policy says. */
  predicate Trusted(policy: Policy, subject: Text, jobId: Text, h: Handoff) {
    match GrantFor(policy.grants, subject)
    case None => false
    case Some(grant) => jobId != [] && h.text != [] && h == Issued(policy, grant, jobId, h.text, h.issuedAt)
  }

  /** SHA-256 of a canonical wire, ideal: equal digests have equal preimages. */
  datatype Digest = Sha256(handoff: Handoff)
}
