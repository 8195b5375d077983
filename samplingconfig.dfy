/**
  Tail-sampling configuration: the policy record, the validation an enabled
  configuration must pass, and the defaults a configuration starts from.
 */
module SamplingConfig {
  import opened Outcomes

  /** Durations in nanoseconds, as Go's `time.Duration`. */
  const Nanosecond: int := 1
  const Second: int := 1_000_000_000 * Nanosecond
  const Minute: int := 60 * Second

  /** The service attributes a policy matches; "" matches any. */
  datatype PolicyService = PolicyService(name: string, environment: string)

  /** The trace attributes a policy matches; "" matches any. */
  datatype PolicyTrace = PolicyTrace(name: string, outcome: string)

  /** One tail-sampling policy: its match criteria and the rate it samples at. */
  datatype TailSamplingPolicy = TailSamplingPolicy(service: PolicyService, trace: PolicyTrace, sampleRate: real)

  /** The tail-sampling configuration. The Elasticsearch connection settings
      and whether they were configured are not part of this model. */
  datatype TailSamplingConfig = TailSamplingConfig(
    enabled: bool,
    policies: seq<TailSamplingPolicy>,
    interval: int,
    ingestRateDecayFactor: real,
    storageGCInterval: int,
    ttl: int,
    storageLimit: string,
    storageLimitParsed: nat)

  /** The two ways an enabled configuration can be invalid. */
  datatype ConfigError = NoPoliciesSpecified | NoDefaultPolicySpecified

  /** A policy counts as default when it equals the zero policy carrying its
      own sample rate: the comparison the validation makes. */
  predicate IsDefaultPolicy(p: TailSamplingPolicy) {
    p == TailSamplingPolicy(PolicyService("", ""), PolicyTrace("", ""), p.sampleRate)
  }

  /** Some policy of `ps` is a default policy. */
  predicate HasDefaultPolicy(ps: seq<TailSamplingPolicy>) {
    exists i :: 0 <= i < |ps| && IsDefaultPolicy(ps[i])
  }

  /** A default policy is one whose four match criteria are all empty. */
  lemma DefaultPolicyCriteria(p: TailSamplingPolicy)
    ensures IsDefaultPolicy(p) <==>
      p.service.name == "" && p.service.environment == "" && p.trace.name == "" && p.trace.outcome == ""
  {
  }

  /** The sample rate plays no part in whether a policy is default. */
  lemma SampleRateIrrelevant(p: TailSamplingPolicy, rate: real)
    ensures IsDefaultPolicy(p.(sampleRate := rate)) == IsDefaultPolicy(p)
  {
  }

  /** Whether a default policy exists does not depend on the order of the
      policies, nor on how often each occurs. */
  lemma PolicyOrderIrrelevant(ps: seq<TailSamplingPolicy>, qs: seq<TailSamplingPolicy>)
    requires forall p :: p in ps <==> p in qs
    ensures HasDefaultPolicy(ps) == HasDefaultPolicy(qs)
  {
    if HasDefaultPolicy(ps) {
      var i :| 0 <= i < |ps| && IsDefaultPolicy(ps[i]);
      assert ps[i] in qs;
    }
    if HasDefaultPolicy(qs) {
      var j :| 0 <= j < |qs| && IsDefaultPolicy(qs[j]);
      assert qs[j] in ps;
    }
  }

  /** A permutation of the policies validates alike. */
  lemma PolicyPermutationIrrelevant(ps: seq<TailSamplingPolicy>, qs: seq<TailSamplingPolicy>)
    requires multiset(ps) == multiset(qs)
    ensures HasDefaultPolicy(ps) == HasDefaultPolicy(qs)
  {
    forall p
      ensures p in ps <==> p in qs
    {
      assert p in ps <==> p in multiset(ps);
      assert p in qs <==> p in multiset(qs);
    }
    PolicyOrderIrrelevant(ps, qs);
  }

  /** `Validate`: a disabled configuration is valid whatever its policies; an
      enabled one needs at least one policy, and at least one default policy
      among them, which the loop looks for and stops at. */
  method Validate(c: TailSamplingConfig) returns (err: Option<ConfigError>)
    ensures !c.enabled ==> err == None
    ensures c.enabled && c.policies == [] ==> err == Some(NoPoliciesSpecified)
    ensures c.enabled && c.policies != [] ==>
      (err == None <==> HasDefaultPolicy(c.policies))
      && (err != None ==> err == Some(NoDefaultPolicySpecified))
  {
    if !c.enabled {
      return None;
    }
    if |c.policies| == 0 {
      return Some(NoPoliciesSpecified);
    }
    var anyDefaultPolicy := false;
    var i := 0;
    while i < |c.policies|
      invariant 0 <= i <= |c.policies|
      invariant !anyDefaultPolicy ==> forall j :: 0 <= j < i ==> !IsDefaultPolicy(c.policies[j])
      invariant anyDefaultPolicy ==> HasDefaultPolicy(c.policies)
    {
      var policy := c.policies[i];
      if IsDefaultPolicy(policy) {
        anyDefaultPolicy := true;
        break;
      }
      i := i + 1;
    }
    if !anyDefaultPolicy {
      return Some(NoDefaultPolicySpecified);
    }
    return None;
  }

  /** `defaultTailSamplingConfig`: disabled, no policies, a one-minute
      interval, a decay factor of 0.25, storage collected every five minutes,
      entries kept thirty minutes, and a storage limit of "3GB", which parses
      to 3·10^9 bytes (decimal units). */
  function DefaultTailSamplingConfig(): (c: TailSamplingConfig)
    ensures !c.enabled && c.policies == []
    ensures c.interval == 60 * Second && c.storageGCInterval == 5 * 60 * Second && c.ttl == 30 * 60 * Second
    ensures c.ingestRateDecayFactor == 0.25
    ensures c.storageLimit == "3GB" && c.storageLimitParsed == 3 * 1000 * 1000 * 1000
  {
    TailSamplingConfig(
      enabled := false,
      policies := [],
      interval := 1 * Minute,
      ingestRateDecayFactor := 0.25,
      storageGCInterval := 5 * Minute,
      ttl := 30 * Minute,
      storageLimit := "3GB",
      storageLimitParsed := 3_000_000_000)
  }

  /** The default configuration passes validation. */
  method ValidateDefaultConfig() returns (err: Option<ConfigError>)
    ensures err == None
  {
    err := Validate(DefaultTailSamplingConfig());
  }

  /** Enabling the default configuration without adding policies fails. */
  method ValidateEnabledDefaultConfig() returns (err: Option<ConfigError>)
    ensures err == Some(NoPoliciesSpecified)
  {
    err := Validate(DefaultTailSamplingConfig().(enabled := true));
  }
}
