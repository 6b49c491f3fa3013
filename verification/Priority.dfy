/** The composite queue priority and the order key built from it.

    Instants are whole milliseconds. Weights and the raw score are exact reals, and the stored
    score is a whole number of micro-units, the precision at which the queue compares. */
module Priority {
  import opened Text

  datatype Severity = Sev1 | Sev2 | Sev3 | Sev4
  datatype Tier = Standard | Premium
  datatype Band = Band1 | Band2 | Band3 | Band4 | Band5
  datatype Sentiment = Absent | NotFinite | Scored(value: real)

  datatype Features = Features(
    id: seq<nat>,
    severity: Severity,
    sentiment: Sentiment,
    tier: Tier,
    band: Band,
    createdAt: int,
    slaDueAt: int)

  datatype Weights = Weights(severity: real, negativity: real, urgency: real, tier: real)

  const WEIGHT_SUM_TOLERANCE: real := 0.000000001
  const PRIORITY_SCALE: int := 1_000_000

  function WeightSum(w: Weights): real { w.severity + w.negativity + w.urgency + w.tier }

  /** What `assertValidWeights` lets through. */
  predicate ValidWeights(w: Weights) {
    && 0.0 <= w.severity <= 1.0 && 0.0 <= w.negativity <= 1.0
    && 0.0 <= w.urgency <= 1.0 && 0.0 <= w.tier <= 1.0
    && -WEIGHT_SUM_TOLERANCE <= WeightSum(w) - 1.0 <= WEIGHT_SUM_TOLERANCE
  }

  function Clamp(x: real, low: real, high: real): real {
    if x < low then low else if x > high then high else x
  }

  function NormalisedSeverity(s: Severity): real {
    match s case Sev1 => 0.25 case Sev2 => 0.5 case Sev3 => 0.75 case Sev4 => 1.0
  }

  function NormalisedNegativity(s: Sentiment): real {
    match s
    case Absent => 0.5
    case NotFinite => 0.5
    case Scored(v) => (1.0 - Clamp(v, -1.0, 1.0)) / 2.0
  }

  function NormalisedTier(t: Tier, b: Band): real {
    (if t == Premium then 1.0 else 0.5) *
    (match b case Band1 => 0.2 case Band2 => 0.4 case Band3 => 0.6 case Band4 => 0.8 case Band5 => 1.0)
  }

  /** The share of the window already spent. A future creation instant is skew and reads as no
      time spent; it is tested before a window that is zero or negative, which reads as all of it. */
  function NormalisedUrgency(f: Features, now: int): real {
    var elapsed := now - f.createdAt;
    var window := f.slaDueAt - f.createdAt;
    if elapsed < 0 then 0.0
    else if window <= 0 then 1.0
    else Clamp(elapsed as real / window as real, 0.0, 1.0)
  }

  /** The share of the score one term is responsible for. */
  function Contribution(normalised: real, weight: real): real { normalised * weight }

  /** The sum of the four contributions. */
  function Mix(severity: real, negativity: real, urgency: real, tier: real, w: Weights): real {
    Contribution(severity, w.severity) + Contribution(negativity, w.negativity) +
    Contribution(urgency, w.urgency) + Contribution(tier, w.tier)
  }

  function Score(f: Features, now: int, w: Weights): real {
    Mix(NormalisedSeverity(f.severity), NormalisedNegativity(f.sentiment),
        NormalisedUrgency(f, now), NormalisedTier(f.tier, f.band), w)
  }

  /** Round half up to whole micro-units. */
  function Quantise(score: real): int {
    (score * PRIORITY_SCALE as real + 0.5).Floor
  }

  predicate Breached(f: Features, now: int) { now > f.slaDueAt }

  datatype Key = Key(breached: bool, priority: int, createdAt: int, id: seq<nat>)

  function QueueKey(f: Features, now: int, w: Weights): Key {
    Key(Breached(f, now), Quantise(Score(f, now, w)), f.createdAt, f.id)
  }

  /** Negative when `a` is served first. */
  function CompareKeys(a: Key, b: Key): int {
    if a.breached != b.breached then (if a.breached then -1 else 1)
    else if a.priority != b.priority then b.priority - a.priority
    else if a.createdAt != b.createdAt then a.createdAt - b.createdAt
    else Compare(a.id, b.id)
  }

  predicate Before(a: Key, b: Key) { CompareKeys(a, b) <= 0 }

  // ----- the order is total -----

  lemma KeysTieOnlyWhenEqual(a: Key, b: Key)
    ensures CompareKeys(a, b) == 0 <==> a == b
  {
    CompareIsZero(a.id, b.id);
  }

  lemma KeyOrderIsTotal(a: Key, b: Key, c: Key)
    ensures Sign(CompareKeys(a, b)) == -Sign(CompareKeys(b, a))
    ensures Before(a, b) || Before(b, a)
    ensures Before(a, b) && Before(b, a) ==> a == b
    ensures Before(a, b) && Before(b, c) ==> Before(a, c)
  {
    CompareSwaps(a.id, b.id);
    CompareIsZero(a.id, b.id);
    if Compare(a.id, b.id) <= 0 && Compare(b.id, c.id) <= 0 { CompareChains(a.id, b.id, c.id); }
  }

  /** Past its SLA instant a ticket can only be preceded by one that is also past it and has either
      a strictly greater priority or an earlier place in the tie-break. */
  lemma OnlyHigherPriorityOvertakesBreached(late: Features, rival: Features, now: int, w: Weights)
    requires Breached(late, now) && rival.createdAt > late.createdAt
    requires Before(QueueKey(rival, now, w), QueueKey(late, now, w))
    ensures Breached(rival, now)
    ensures QueueKey(rival, now, w).priority > QueueKey(late, now, w).priority
  {
  }

  // ----- the score keeps to its range -----

  lemma TermsAreNormalised(f: Features, now: int)
    ensures 0.25 <= NormalisedSeverity(f.severity) <= 1.0
    ensures 0.0 <= NormalisedNegativity(f.sentiment) <= 1.0
    ensures 0.0 <= NormalisedUrgency(f, now) <= 1.0
    ensures 0.1 <= NormalisedTier(f.tier, f.band) <= 1.0
  {
  }

  lemma Scales(x: real, w: real)
    requires 0.0 <= x <= 1.0 && 0.0 <= w
    ensures 0.0 <= Contribution(x, w) <= w
  {
    assert 0.0 <= x * w <= w;
  }

  lemma MixBound(s: real, n: real, u: real, t: real, w: Weights)
    requires 0.0 <= s <= 1.0 && 0.0 <= n <= 1.0 && 0.0 <= u <= 1.0 && 0.0 <= t <= 1.0
    requires 0.0 <= w.severity && 0.0 <= w.negativity && 0.0 <= w.urgency && 0.0 <= w.tier
    ensures 0.0 <= Mix(s, n, u, t, w) <= WeightSum(w)
  {
    Scales(s, w.severity);
    Scales(n, w.negativity);
    Scales(u, w.urgency);
    Scales(t, w.tier);
  }

  lemma QuantiseFits(x: real)
    requires 0.0 <= x <= 1.0 + WEIGHT_SUM_TOLERANCE
    ensures 0 <= Quantise(x) <= PRIORITY_SCALE
  {
  }

  /** The stored score always fits [0, 1] in micro-units: the tolerance on the weight sum is far
      below the rounding unit. */
  lemma StoredScoreFits(f: Features, now: int, w: Weights)
    requires ValidWeights(w)
    ensures 0.0 <= Score(f, now, w) <= WeightSum(w)
    ensures 0 <= Quantise(Score(f, now, w)) <= PRIORITY_SCALE
  {
    TermsAreNormalised(f, now);
    MixBound(NormalisedSeverity(f.severity), NormalisedNegativity(f.sentiment),
             NormalisedUrgency(f, now), NormalisedTier(f.tier, f.band), w);
    QuantiseFits(Score(f, now, w));
  }

  /** The most urgent ticket there can be: every term of its score is one. */
  const WORST := Features([], Sev4, Scored(-1.0), Premium, Band5, 0, 0)

  /** The raw score is the one that may leave [0, 1]. It stays inside for every ticket and instant
      exactly when the weights do not use the tolerance upwards. */
  lemma RawScoreBound(w: Weights)
    requires ValidWeights(w)
    ensures (forall f, now :: 0.0 <= Score(f, now, w) <= 1.0) <==> WeightSum(w) <= 1.0
  {
    assert Score(WORST, 1, w) == WeightSum(w);
    if WeightSum(w) <= 1.0 {
      forall f, now ensures 0.0 <= Score(f, now, w) <= 1.0 { StoredScoreFits(f, now, w); }
    }
  }

  // ----- keys only improve with time -----

  lemma DivisionGrows(x: int, y: int, d: int)
    requires x <= y && 0 < d
    ensures x as real / d as real <= y as real / d as real
  {
  }

  lemma UrgencyGrows(f: Features, t: int, u: int)
    requires t <= u
    ensures NormalisedUrgency(f, t) <= NormalisedUrgency(f, u)
  {
    var window := f.slaDueAt - f.createdAt;
    if t >= f.createdAt && window > 0 { DivisionGrows(t - f.createdAt, u - f.createdAt, window); }
  }

  /** At the due instant the urgency is spent and the ticket is not yet breached. */
  lemma UrgencyIsSpentWhenDue(f: Features, now: int)
    requires now >= f.slaDueAt && now >= f.createdAt
    ensures NormalisedUrgency(f, now) == 1.0
    ensures now == f.slaDueAt ==> !Breached(f, now) && Breached(f, now + 1)
  {
    var window := f.slaDueAt - f.createdAt;
    if window > 0 {
      DivisionGrows(window, now - f.createdAt, window);
      assert window as real / window as real == 1.0;
    }
  }

  lemma QuantiseGrows(x: real, y: real)
    requires x <= y
    ensures Quantise(x) <= Quantise(y)
  {
  }

  lemma Products(x: real, y: real, w: real)
    requires x <= y && 0.0 <= w
    ensures Contribution(x, w) <= Contribution(y, w)
  {
    assert x * w <= y * w;
  }

  lemma MixGrows(s: real, n: real, u: real, v: real, t: real, w: Weights)
    requires u <= v && ValidWeights(w)
    ensures Mix(s, n, u, t, w) <= Mix(s, n, v, t, w)
  {
    Products(u, v, w.urgency);
  }

  /** Waiting never costs a ticket its place: a key read later is never behind one read earlier. */
  lemma KeysOnlyImprove(f: Features, t: int, u: int, w: Weights)
    requires t <= u && ValidWeights(w)
    ensures Score(f, t, w) <= Score(f, u, w)
    ensures Breached(f, t) ==> Breached(f, u)
    ensures Before(QueueKey(f, u, w), QueueKey(f, t, w))
  {
    UrgencyGrows(f, t, u);
    MixGrows(NormalisedSeverity(f.severity), NormalisedNegativity(f.sentiment), NormalisedUrgency(f, t),
             NormalisedUrgency(f, u), NormalisedTier(f.tier, f.band), w);
    QuantiseGrows(Score(f, t, w), Score(f, u, w));
    CompareIsZero(f.id, f.id);
  }
}
