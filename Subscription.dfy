/** The subscription tiers and quota counters (backend/models/Subscription.js):
    the static tier table with its fallback, and a subscription document whose
    `limits` and `usage` sub-objects are keyed by field name. */
module Subscription {
  import opened Js

  datatype Features = Features(
    analytics: bool,
    advancedReporting: bool,
    multiUser: bool,
    apiAccess: bool,
    prioritySupport: bool,
    customBranding: bool,
    dataExport: bool,
    mobileApp: bool)

  /** One row of the tier table; -1 means unlimited. */
  datatype TierLimits = TierLimits(
    maxPatients: int,
    maxRecordsPerMonth: int,
    maxUsers: int,
    maxStorageGB: int,
    apiRateLimit: int,
    price: real,
    features: Features)

  const UNLIMITED: int := -1

  const FREE: TierLimits := TierLimits(10, 100, 1, 1, 100, 0.0,
    Features(false, false, false, false, false, false, true, true))
  const BASIC: TierLimits := TierLimits(50, 1000, 3, 5, 500, 29.99,
    Features(true, false, true, false, false, false, true, true))
  const PROFESSIONAL: TierLimits := TierLimits(200, 5000, 10, 20, 2000, 79.99,
    Features(true, true, true, true, true, false, true, true))
  const ENTERPRISE: TierLimits := TierLimits(UNLIMITED, UNLIMITED, UNLIMITED, 100, 10000, 299.99,
    Features(true, true, true, true, true, true, true, true))

  /** What `limits[tier] || limits.FREE` yields: a table row, or, for a name the
      object literal inherits from Object.prototype, that inherited member. */
  datatype TierLookup = Row(limits: TierLimits) | PrototypeMember(key: string)

  /** `Subscription.getTierLimits(tier)` */
  function GetTierLimits(tier: string): (r: TierLookup)
    ensures tier == "FREE" ==> r == Row(FREE)
    ensures tier == "BASIC" ==> r == Row(BASIC)
    ensures tier == "PROFESSIONAL" ==> r == Row(PROFESSIONAL)
    ensures tier == "ENTERPRISE" ==> r == Row(ENTERPRISE)
    ensures tier !in {"FREE", "BASIC", "PROFESSIONAL", "ENTERPRISE"} ==>
      r == (if InheritedKey(tier) then PrototypeMember(tier) else Row(FREE))
  {
    if tier == "FREE" then Row(FREE)
    else if tier == "BASIC" then Row(BASIC)
    else if tier == "PROFESSIONAL" then Row(PROFESSIONAL)
    else if tier == "ENTERPRISE" then Row(ENTERPRISE)
    else if InheritedKey(tier) then PrototypeMember(tier)
    else Row(FREE)
  }

  /** The patient quota grows with the tier and is unlimited at the top. */
  lemma MaxPatientsByTier()
    ensures GetTierLimits("FREE").limits.maxPatients < GetTierLimits("BASIC").limits.maxPatients
            < GetTierLimits("PROFESSIONAL").limits.maxPatients
    ensures GetTierLimits("ENTERPRISE").limits.maxPatients == UNLIMITED
  {
  }

  /** Every tier exports data and has the mobile app; the top tier has every
      feature; an unknown, non-inherited tier name gets the free row. */
  lemma TierFeatures(tier: string)
    requires !InheritedKey(tier)
    ensures GetTierLimits(tier).Row?
    ensures GetTierLimits(tier).limits.features.dataExport && GetTierLimits(tier).limits.features.mobileApp
    ensures tier == "ENTERPRISE" ==> GetTierLimits(tier).limits.features == Features(true, true, true, true, true, true, true, true)
    ensures tier !in {"FREE", "BASIC", "PROFESSIONAL", "ENTERPRISE"} ==> GetTierLimits(tier) == Row(FREE)
  {
  }

  // ---------------------------------------------------------------------------
  // The subscription document

  const LIMIT_KEYS: set<string> := {"maxPatients", "maxRecordsPerMonth", "maxUsers", "maxStorageGB", "apiRateLimit"}
  const USAGE_KEYS: set<string> := {"currentPatients", "recordsThisMonth", "storageUsedGB"}

  /** The schema defaults of `limits`, which are the free row. */
  function LimitsOf(t: TierLimits): (m: map<string, int>)
    ensures m.Keys == LIMIT_KEYS
  {
    map["maxPatients" := t.maxPatients, "maxRecordsPerMonth" := t.maxRecordsPerMonth,
        "maxUsers" := t.maxUsers, "maxStorageGB" := t.maxStorageGB, "apiRateLimit" := t.apiRateLimit]
  }

  /** `limitType.replace('max', 'current')`: the usage field checked against a limit. */
  function UsageKey(limitType: string): string
  {
    ReplaceFirst(limitType, "max", "current")
  }

  /** A name starting with 'max' maps to 'current' followed by the rest. */
  lemma UsageKeyOfMax(rest: string)
    ensures UsageKey("max" + rest) == "current" + rest
  {
    var s := "max" + rest;
    assert OccursAt(s, "max", 0);
    assert s[3..] == rest;
  }

  /** A name whose first character is not 'm' keeps its first character. */
  lemma UsageKeyKeepsFirst(s: string)
    requires s != [] && s[0] != 'm'
    ensures UsageKey(s) != [] && UsageKey(s)[0] == s[0]
  {
    assert !OccursAt(s, "max", 0) by {
      if 3 <= |s| {
        assert s[0..3][0] == s[0];
      }
    }
    match FindFrom(s, "max", 0)
    case None =>
    case Some(i) =>
      assert (s[..i] + "current" + s[i + 3..])[0] == s[..i][0];
  }

  /** Of the five limits only maxPatients names an existing counter. */
  lemma OnlyMaxPatientsHasCounter(limitType: string)
    requires limitType in LIMIT_KEYS
    ensures UsageKey(limitType) in USAGE_KEYS <==> limitType == "maxPatients"
  {
    if limitType == "apiRateLimit" {
      UsageKeyKeepsFirst(limitType);
    } else {
      var rest := limitType[3..];
      assert limitType == "max" + rest;
      UsageKeyOfMax(rest);
      var key := "current" + rest;
      assert key[0] == 'c';
      assert key != "recordsThisMonth" && key != "storageUsedGB" by {
        assert "recordsThisMonth"[0] == 'r' && "storageUsedGB"[0] == 's';
      }
      assert key == "currentPatients" <==> rest == "Patients" by {
        assert key[7..] == rest;
        assert "currentPatients"[7..] == "Patients";
      }
      assert rest == "Patients" <==> limitType == "maxPatients";
    }
  }

  class Subscription {
    var tier: string
    var limits: map<string, int>
    var usage: map<string, int>
    var lastResetDate: int

    predicate Valid()
      reads this
    {
      limits.Keys == LIMIT_KEYS && usage.Keys == USAGE_KEYS
    }

    /** A new subscription: the free tier, the free limits, zero usage. */
    constructor(now: int)
      ensures Valid()
      ensures tier == "FREE" && limits == LimitsOf(FREE) && lastResetDate == now
      ensures usage == map["currentPatients" := 0, "recordsThisMonth" := 0, "storageUsedGB" := 0]
    {
      tier := "FREE";
      limits := LimitsOf(FREE);
      usage := map["currentPatients" := 0, "recordsThisMonth" := 0, "storageUsedGB" := 0];
      lastResetDate := now;
    }

    /** `checkLimit(limitType)`: an unlimited limit always passes; otherwise the
        counter must be below the limit. A missing limit or counter is undefined,
        and comparing with undefined is false. */
    function CheckLimit(limitType: string): (ok: bool)
      reads this
      ensures ok <==> (limitType in limits &&
        (limits[limitType] == UNLIMITED || (UsageKey(limitType) in usage && usage[UsageKey(limitType)] < limits[limitType])))
    {
      if limitType !in limits then false
      else if limits[limitType] == UNLIMITED then true
      else
        var key := UsageKey(limitType);
        key in usage && usage[key] < limits[limitType]
    }

    /** `usage[usageType] += 1` on one of the three counters; any other name,
        `lastResetDate` included, changes nothing here. */
    method IncrementUsage(usageType: string)
      requires Valid()
      modifies this
      ensures Valid()
      ensures tier == old(tier) && limits == old(limits) && lastResetDate == old(lastResetDate)
      ensures usageType in USAGE_KEYS ==> usage == old(usage)[usageType := old(usage)[usageType] + 1]
      ensures usageType !in USAGE_KEYS ==> usage == old(usage)
    {
      if usageType in usage {
        usage := usage[usageType := usage[usageType] + 1];
      }
    }

    /** `resetMonthlyUsage()`: the monthly record counter goes back to zero and the
        reset date moves to now; the other counters stay. */
    method ResetMonthlyUsage(now: int)
      requires Valid()
      modifies this
      ensures Valid()
      ensures tier == old(tier) && limits == old(limits)
      ensures usage == old(usage)["recordsThisMonth" := 0]
      ensures lastResetDate == now
    {
      usage := usage["recordsThisMonth" := 0];
      lastResetDate := now;
    }
  }

  /** Under every limit but maxPatients the check reads a missing counter, so it
      passes exactly when that limit is unlimited. */
  lemma CheckLimitWithoutCounter(s: Subscription, limitType: string)
    requires s.Valid() && limitType in LIMIT_KEYS && limitType != "maxPatients"
    ensures s.CheckLimit(limitType) <==> s.limits[limitType] == UNLIMITED
  {
    OnlyMaxPatientsHasCounter(limitType);
  }

  /** One more patient than the quota allows is refused, and an unlimited
      quota is never exhausted. */
  lemma PatientQuota(s: Subscription)
    requires s.Valid()
    ensures s.limits["maxPatients"] == UNLIMITED ==> s.CheckLimit("maxPatients")
    ensures s.limits["maxPatients"] != UNLIMITED ==>
      (s.CheckLimit("maxPatients") <==> s.usage["currentPatients"] < s.limits["maxPatients"])
  {
    UsageKeyOfMax("Patients");
    assert "max" + "Patients" == "maxPatients";
    assert UsageKey("maxPatients") == "currentPatients";
    assert "currentPatients" in s.usage && "maxPatients" in s.limits;
  }
}
