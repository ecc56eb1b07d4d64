/** The e-mail rule every agent-facing form applies: the address must end in "@agent.com". */
module AgentEmail {

  const AgentDomain: string := "@agent.com"

  /** `String.prototype.endsWith`. */
  predicate EndsWith(s: string, suffix: string) {
    |suffix| <= |s| && s[|s| - |suffix|..] == suffix
  }

  predicate IsAgentEmail(email: string) {
    EndsWith(email, AgentDomain)
  }

  /** `s` ends with `suffix` exactly when it is something followed by `suffix`. */
  lemma EndsWithIffSplit(s: string, suffix: string)
    ensures EndsWith(s, suffix) <==> exists front :: s == front + suffix
  {
    if EndsWith(s, suffix) {
      var front := s[..|s| - |suffix|];
      assert s == front + suffix;
    }
    if exists front :: s == front + suffix {
      var front :| s == front + suffix;
      assert s[|s| - |suffix|..] == suffix;
    }
  }

  /** Any local part followed by the agent domain passes the rule. */
  lemma AgentAddress(local: string)
    ensures IsAgentEmail(local + AgentDomain)
  {
    EndsWithIffSplit(local + AgentDomain, AgentDomain);
  }
}
