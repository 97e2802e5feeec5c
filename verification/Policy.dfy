/** The caching policy of cache/policy.go. Durations are integer nanoseconds. */
module Policy {

  datatype Policy = Policy(defaultTTL: int, maxTTL: int, allowUnsafe: bool) {

    predicate ShouldCache() {
      defaultTTL > 0
    }

    /** No override, or a negative one, means the default; a positive maximum clamps. */
    function EffectiveTTL(override: int): int {
      var ttl := if override <= 0 then defaultTTL else override;
      if maxTTL > 0 && ttl > maxTTL then maxTTL else ttl
    }
  }

  /** The time asked for, or the default without one, unless a positive maximum is less. */
  lemma EffectiveTTLIs(p: Policy, override: int)
    ensures var asked := if 0 < override then override else p.defaultTTL;
            && (p.maxTTL <= 0 || asked <= p.maxTTL ==> p.EffectiveTTL(override) == asked)
            && (0 < p.maxTTL < asked ==> p.EffectiveTTL(override) == p.maxTTL)
  {}

  /** A caching policy never stores for no time, nor for longer than the requested or the maximal time. */
  lemma EffectiveTTLBounds(p: Policy, override: int)
    ensures 0 < p.EffectiveTTL(override) <==> 0 < override || p.ShouldCache()
    ensures p.maxTTL > 0 ==> p.EffectiveTTL(override) <= p.maxTTL
    ensures 0 < override ==> p.EffectiveTTL(override) <= override
    ensures override <= 0 ==> p.EffectiveTTL(override) <= p.defaultTTL
  {}
}
