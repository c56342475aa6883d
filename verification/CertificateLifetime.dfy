/** How long the certificates of one manager live, over whole runs of passes, requests and configuration changes. The
    checks of a pass are steps of their own. */
module CertificateLifetime {
  import opened Certificates
  import opened Reconciler
  import opened Issuance

  /** A certificate of this type was replaced under this key at this time. */
  datatype Rotation = Rotation(key: string, time: int, certType: CertType)

  /** `todo` is what is left of the snapshot that the current pass of checkAndRotate works on; `passStart` is when that
      pass started, and `prevStart` when the one before it did. */
  datatype State = State(
    cache: map<string, Certificate>,
    todo: map<string, Certificate>,
    prevStart: int,
    passStart: int,
    issuers: Issuers,
    validity: Validity,
    now: int,
    rotations: set<Rotation>)

  datatype Action =
    | Wait(duration: nat)
    | StartPass
    | Check(key: string, noise: int)
    | Request(options: IssueOptions, noise: int, up: bool)
    | ReleaseKey(key: string)
    | Reconfigure(validity: Validity)
    | ChangeIssuers(issuers: Issuers)

  /** The longest time between the starts of two passes, and the longest time a pass takes. */
  datatype Pace = Pace(interval: nat, length: nat)

  /** Anything may happen between two checks of a pass. Provider calls made by a check succeed. */
  predicate Enabled(s: State, a: Action, pace: Pace) {
    match a
    case Wait(d) =>
      && s.now + d <= s.passStart + pace.interval
      && (s.todo != map[] ==> s.now + d <= s.passStart + pace.length)
    case StartPass => s.todo == map[]
    case Check(key, noise) => key in s.todo && IsNoise(noise)
    case Request(_, noise, _) => IsNoise(noise)
    case ReleaseKey(_) => true
    case Reconfigure(v) => LongEnough(v)
    case ChangeIssuers(issuers) => Ready(issuers)
  }

  /** The state after a call of issueCertificate, by a request or by a check. */
  function AfterIssuance(s: State, o: IssueOptions, noise: int, up: bool): State
    requires Ready(s.issuers)
  {
    var issued := IssueCertificate(s.cache, o, s.issuers, s.validity, s.now, noise, up);
    var key := o.commonNamePrefix;
    s.(cache := issued.cache,
       rotations := s.rotations + if issued.messages == [] then {} else {Rotation(key, s.now, s.cache[key].certType)})
  }

  /** A check works with the snapshot of its entry and with the present cache, issuers, validities and time. */
  function Next(s: State, a: Action): State
    requires Ready(s.issuers) && (a.Check? ==> a.key in s.todo)
  {
    match a
    case Wait(d) => s.(now := s.now + d)
    case StartPass => s.(todo := s.cache, prevStart := s.passStart, passStart := s.now)
    case Check(key, noise) =>
      AfterIssuance(s, RotationOptions(key, s.todo[key]), noise, true).(todo := s.todo - {key})
    case Request(o, noise, up) => AfterIssuance(s, o, noise, up)
    case ReleaseKey(key) => s.(cache := s.cache - {key})
    case Reconfigure(v) => s.(validity := v)
    case ChangeIssuers(issuers) => s.(issuers := issuers)
  }

  /** The ticker of a new manager starts with a pass over the empty cache. */
  predicate Init(s: State) {
    && s.cache == map[] && s.todo == map[] && s.rotations == {} && Ready(s.issuers) && LongEnough(s.validity)
    && s.prevStart == s.passStart == s.now
  }

  ghost predicate IsRun(s: State, run: seq<Action>, pace: Pace)
    requires Ready(s.issuers)
    decreases |run|
  {
    run == [] || (Enabled(s, run[0], pace) && Ready(Next(s, run[0]).issuers) &&
      IsRun(Next(s, run[0]), run[1..], pace))
  }

  ghost function After(s: State, run: seq<Action>, pace: Pace): State
    requires Ready(s.issuers) && IsRun(s, run, pace)
    decreases |run|
  {
    if run == [] then s else After(Next(s, run[0]), run[1..], pace)
  }

  /** Every step records the certificate that it replaces, if it does, and forgets none. */
  lemma StepRecordsRotations(s: State, a: Action, key: string, pace: Pace)
    requires Ready(s.issuers) && Enabled(s, a, pace)
    ensures s.rotations <= Next(s, a).rotations
    ensures key in s.cache && key in Next(s, a).cache && s.cache[key] != Next(s, a).cache[key] ==>
              Rotation(key, s.now, s.cache[key].certType) in Next(s, a).rotations
    ensures forall r :: r in Next(s, a).rotations - s.rotations ==>
              r.time == s.now && r.key in s.cache && r.certType == s.cache[r.key].certType
  {
  }

  // ---------------------------------------------------------------------------
  // Certificates never come close to expiry

  /** A check, or the issuance of the entry, came no earlier than this. */
  function DealtWithSince(s: State, key: string): int {
    if key in s.todo then s.prevStart else s.passStart
  }

  ghost predicate Inv(s: State, pace: Pace) {
    && Ready(s.issuers) && LongEnough(s.validity)
    && s.prevStart <= s.passStart <= s.now && s.passStart <= s.prevStart + pace.interval
    && s.now <= s.passStart + pace.interval && (s.todo != map[] ==> s.now <= s.passStart + pace.length)
    && forall key <- s.cache :: s.cache[key].expiration > DealtWithSince(s, key) + MIN_ROTATE_BEFORE_EXPIRE
  }

  /** What a call of issueCertificate leaves under its key, if it succeeds, lies outside its renewal window. */
  lemma IssuanceRenews(s: State, o: IssueOptions, noise: int, up: bool)
    requires Ready(s.issuers) && LongEnough(s.validity) && IsNoise(noise)
    ensures var next, key := AfterIssuance(s, o, noise, up), o.commonNamePrefix;
            && (forall k <- next.cache :: k != key ==> k in s.cache && next.cache[k] == s.cache[k])
            && (next.cache != s.cache || up ==> key in next.cache && OutsideWindow(next.cache[key], s.validity, s.now))
  {
    var key := o.commonNamePrefix;
    WindowIsShort(ValidityFor(s.validity, o.certType), noise);
    if key in s.cache {
      WindowIsShort(ValidityFor(s.validity, s.cache[key].certType), noise);
    }
  }

  predicate OutsideWindow(c: Certificate, validity: Validity, time: int) {
    c.expiration > time + RenewBefore(ValidityFor(validity, c.certType), 0)
  }

  lemma IssuanceKeepsInv(s: State, o: IssueOptions, noise: int, up: bool, pace: Pace)
    requires Inv(s, pace) && IsNoise(noise)
    ensures Inv(AfterIssuance(s, o, noise, up), pace)
  {
    var next, key := AfterIssuance(s, o, noise, up), o.commonNamePrefix;
    IssuanceRenews(s, o, noise, up);
    if key in next.cache {
      WindowIsShort(ValidityFor(s.validity, next.cache[key].certType), noise);
    }
  }

  lemma CheckKeepsInv(s: State, key: string, noise: int, pace: Pace)
    requires Inv(s, pace) && key in s.todo && IsNoise(noise)
    ensures Inv(Next(s, Check(key, noise)), pace)
  {
    var next := Next(s, Check(key, noise));
    IssuanceRenews(s, RotationOptions(key, s.todo[key]), noise, true);
    WindowIsShort(ValidityFor(s.validity, next.cache[key].certType), noise);
  }

  lemma StepKeepsInv(s: State, a: Action, pace: Pace)
    requires Inv(s, pace) && Enabled(s, a, pace)
    ensures Inv(Next(s, a), pace)
  {
    match a
    case Check(key, noise) => CheckKeepsInv(s, key, noise, pace);
    case Request(o, noise, up) => IssuanceKeepsInv(s, o, noise, up, pace);
    case _ =>
  }

  lemma {:induction false} RunKeepsInv(s: State, run: seq<Action>, pace: Pace)
    requires Inv(s, pace) && IsRun(s, run, pace)
    ensures Inv(After(s, run, pace), pace)
    decreases |run|
  {
    if run != [] {
      StepKeepsInv(s, run[0], pace);
      RunKeepsInv(Next(s, run[0]), run[1..], pace);
    }
  }

  /** Lifetime bound: at every moment of every run every cached certificate has more than five minutes left, less the
      longest time between two passes and the longest time a pass takes. */
  lemma LifetimeBound(s: State, run: seq<Action>, pace: Pace)
    requires Init(s) && IsRun(s, run, pace)
    ensures var end := After(s, run, pace);
            forall key <- end.cache ::
              end.cache[key].expiration - end.now > 300_000_000_000 - pace.interval - pace.length
  {
    RunKeepsInv(s, run, pace);
  }

  /** The bound is sharp: with the shortest validity, of ten minutes, and passes that start far apart, a run reaches it
      but for the last nanosecond. */
  lemma LifetimeBoundIsSharp(s: State, o: IssueOptions, pace: Pace) returns (run: seq<Action>)
    requires Init(s) && o.certType == Service && s.validity.service == 600_000_000_000
    requires pace.interval >= 299_999_999_999 && pace.length <= pace.interval
    ensures IsRun(s, run, pace)
    ensures var end, key := After(s, run, pace), o.commonNamePrefix;
            && key in end.cache
            && end.cache[key].expiration - end.now == 300_000_000_000 - pace.interval - pace.length + 1
  {
    var key := o.commonNamePrefix;
    var issue, age, start, check := Request(o, 0, true), Wait(299_999_999_999), StartPass, Check(key, 0);
    var issued := Next(s, issue);
    var c := issued.cache[key];
    NewCertificateExpires(o, s.issuers, s.validity, s.now);
    assert c.expiration == s.now + 600_000_000_000 && c.certType == Service;
    var snapshot := Next(Next(issued, age), start);
    assert snapshot.todo == issued.cache && snapshot.cache[key] == c;
    var checked := Next(snapshot, check);
    ShouldRotateIff(c, s.issuers, s.validity, snapshot.now, 0);
    assert checked.cache == snapshot.cache && checked.todo == map[];
    var first := [issue, age, start, check];
    FourSteps(s, issue, age, start, check, pace);
    var wait, again, work := Wait(pace.interval), StartPass, Wait(pace.length);
    var second := [wait, again, work];
    ThreeSteps(checked, wait, again, work, pace);
    RunConcat(s, first, second, pace);
    run := first + second;
  }

  lemma OneStep(s: State, a: Action, pace: Pace)
    requires Ready(s.issuers) && Enabled(s, a, pace) && Ready(Next(s, a).issuers)
    ensures IsRun(s, [a], pace) && After(s, [a], pace) == Next(s, a)
  {
    assert [a][1..] == [];
    assert IsRun(Next(s, a), [], pace) && After(Next(s, a), [], pace) == Next(s, a);
  }

  lemma ThreeSteps(s: State, a: Action, b: Action, c: Action, pace: Pace)
    requires Ready(s.issuers) && !a.Check? && !b.Check? && !c.Check? && Ready(Next(s, a).issuers)
    requires Ready(Next(Next(s, a), b).issuers) && Ready(Next(Next(Next(s, a), b), c).issuers)
    requires Enabled(s, a, pace) && Enabled(Next(s, a), b, pace) && Enabled(Next(Next(s, a), b), c, pace)
    ensures IsRun(s, [a, b, c], pace) && After(s, [a, b, c], pace) == Next(Next(Next(s, a), b), c)
  {
    var t := Next(s, a);
    assert [a, b, c][1..] == [b, c] && [b, c][1..] == [c];
    OneStep(Next(t, b), c, pace);
    assert IsRun(t, [b, c], pace) && After(t, [b, c], pace) == Next(Next(t, b), c);
  }

  lemma FourSteps(s: State, a: Action, b: Action, c: Action, d: Action, pace: Pace)
    requires Ready(s.issuers) && !a.Check? && !b.Check? && !c.Check? && Ready(Next(s, a).issuers)
    requires Ready(Next(Next(s, a), b).issuers) && Ready(Next(Next(Next(s, a), b), c).issuers)
    requires Enabled(s, a, pace) && Enabled(Next(s, a), b, pace) && Enabled(Next(Next(s, a), b), c, pace)
    requires Enabled(Next(Next(Next(s, a), b), c), d, pace) && Ready(Next(Next(Next(Next(s, a), b), c), d).issuers)
    ensures IsRun(s, [a, b, c, d], pace)
    ensures After(s, [a, b, c, d], pace) == Next(Next(Next(Next(s, a), b), c), d)
  {
    var t := Next(Next(Next(s, a), b), c);
    ThreeSteps(s, a, b, c, pace);
    OneStep(t, d, pace);
    RunConcat(s, [a, b, c], [d], pace);
    assert [a, b, c] + [d] == [a, b, c, d];
  }

  lemma {:induction false} RunConcat(s: State, first: seq<Action>, second: seq<Action>, pace: Pace)
    requires Ready(s.issuers) && IsRun(s, first, pace)
    requires Ready(After(s, first, pace).issuers) && IsRun(After(s, first, pace), second, pace)
    ensures IsRun(s, first + second, pace)
    ensures After(s, first + second, pace) == After(After(s, first, pace), second, pace)
    decreases |first|
  {
    if first == [] {
      assert first + second == second;
    } else {
      assert (first + second)[1..] == first[1..] + second;
      RunConcat(Next(s, first[0]), first[1..], second, pace);
    }
  }

  /** While the validities stay, every entry was outside its own renewal window when it was last dealt with. */
  ghost predicate WindowInv(s: State) {
    forall key <- s.cache :: OutsideWindow(s.cache[key], s.validity, DealtWithSince(s, key))
  }

  lemma StepKeepsWindow(s: State, a: Action, pace: Pace)
    requires Inv(s, pace) && WindowInv(s) && Enabled(s, a, pace) && !a.Reconfigure?
    ensures WindowInv(Next(s, a))
  {
    match a
    case Check(key, noise) => IssuanceRenews(s, RotationOptions(key, s.todo[key]), noise, true);
    case Request(o, noise, up) => IssuanceRenews(s, o, noise, up);
    case _ =>
  }

  lemma {:induction false} RunKeepsWindow(s: State, run: seq<Action>, pace: Pace)
    requires Inv(s, pace) && WindowInv(s) && IsRun(s, run, pace) && forall a <- run :: !a.Reconfigure?
    ensures WindowInv(After(s, run, pace)) && After(s, run, pace).validity == s.validity
    decreases |run|
  {
    if run != [] {
      StepKeepsInv(s, run[0], pace);
      StepKeepsWindow(s, run[0], pace);
      RunKeepsWindow(Next(s, run[0]), run[1..], pace);
    }
  }

  /** With constant validities every certificate has also more than a third of the validity of its type left, less the
      same times. */
  lemma WindowBound(s: State, run: seq<Action>, pace: Pace)
    requires Init(s) && IsRun(s, run, pace) && forall a <- run :: !a.Reconfigure?
    ensures var end := After(s, run, pace);
            forall key <- end.cache ::
              var left := end.cache[key].expiration - end.now;
              HasTimeLeft(end.cache[key].certType, s.validity, left + pace.interval + pace.length)
  {
    RunKeepsInv(s, run, pace);
    RunKeepsWindow(s, run, pace);
    var end := After(s, run, pace);
    forall key <- end.cache
      ensures HasTimeLeft(end.cache[key].certType, s.validity,
                          end.cache[key].expiration - end.now + pace.interval + pace.length)
    {
      OutsideWindowIff(end.cache[key].certType, s.validity,
                       end.cache[key].expiration - end.now + pace.interval + pace.length);
    }
  }

  // ---------------------------------------------------------------------------
  // Certificates are not renewed too often

  predicate KeepsConfiguration(a: Action) {
    !a.Reconfigure? && !a.ChangeIssuers?
  }

  /** The least time between two rotations of a key, for a certificate of this type. */
  function Spacing(validity: Validity, ct: CertType): int {
    ValidityFor(validity, ct) - RenewBefore(ValidityFor(validity, ct), NOISE_SECONDS - 1)
  }

  /** Any two rotations of one key are spaced apart. */
  predicate Spaced(rotations: set<Rotation>, validity: Validity) {
    forall r, q :: r in rotations && q in rotations && r != q && r.key == q.key && r.time <= q.time ==>
      q.time - r.time >= Spacing(validity, q.certType)
  }

  /** A cached certificate carries the issuers and was issued no earlier than any rotation of its key. */
  predicate IssuedSince(key: string, c: Certificate, issuers: Issuers, validity: Validity, rotations: set<Rotation>)
    requires Ready(issuers)
  {
    && StampedWith(c, issuers)
    && forall r :: r in rotations && r.key == key ==> c.expiration >= r.time + ValidityFor(validity, c.certType)
  }

  ghost predicate SpacingInv(s: State) {
    && Ready(s.issuers) && LongEnough(s.validity)
    && (forall r :: r in s.rotations ==> r.time <= s.now)
    && (forall key :: key in s.cache ==> IssuedSince(key, s.cache[key], s.issuers, s.validity, s.rotations))
    && Spaced(s.rotations, s.validity)
  }

  /** A rotation of a cached certificate comes at least a spacing after the earlier rotations of its key. */
  lemma NewRotationIsSpaced(s: State, key: string, noise: int, r: Rotation)
    requires SpacingInv(s) && key in s.cache && IsNoise(noise)
    requires ShouldRotate(s.cache[key], s.issuers, s.validity, s.now, noise)
    requires r in s.rotations && r.key == key
    ensures s.now - r.time >= Spacing(s.validity, s.cache[key].certType) > 0
  {
    var c := s.cache[key];
    assert IssuedSince(key, c, s.issuers, s.validity, s.rotations);
    WindowIsShort(ValidityFor(s.validity, c.certType), noise);
  }

  /** Adding the rotations of this moment, at most one per key and each spaced from the earlier ones, keeps
      them spaced. */
  lemma AddRotations(earlier: set<Rotation>, added: set<Rotation>, validity: Validity, now: int)
    requires Spaced(earlier, validity)
    requires forall r :: r in added ==> r.time == now
    requires forall r, q :: r in added && q in added && r.key == q.key ==> r == q
    requires forall r, q :: r in added && q in earlier && r.key == q.key ==>
        now - q.time >= Spacing(validity, r.certType) > 0
    ensures Spaced(earlier + added, validity)
  {
  }

  lemma IssuanceIsSpaced(s: State, o: IssueOptions, noise: int, up: bool)
    requires SpacingInv(s) && IsNoise(noise)
    ensures Spaced(AfterIssuance(s, o, noise, up).rotations, s.validity)
  {
    var key := o.commonNamePrefix;
    if key in s.cache && ShouldRotate(s.cache[key], s.issuers, s.validity, s.now, noise) {
      forall q | q in s.rotations && q.key == key
        ensures s.now - q.time >= Spacing(s.validity, s.cache[key].certType) > 0
      {
        NewRotationIsSpaced(s, key, noise, q);
      }
      AddRotations(s.rotations, {Rotation(key, s.now, s.cache[key].certType)}, s.validity, s.now);
    }
  }

  lemma IssuanceKeepsSpacing(s: State, o: IssueOptions, noise: int, up: bool)
    requires SpacingInv(s) && IsNoise(noise)
    ensures SpacingInv(AfterIssuance(s, o, noise, up))
  {
    var next := AfterIssuance(s, o, noise, up);
    IssuanceIsSpaced(s, o, noise, up);
    forall k | k in next.cache
      ensures IssuedSince(k, next.cache[k], s.issuers, s.validity, next.rotations)
    {
      assert k in s.cache ==> IssuedSince(k, s.cache[k], s.issuers, s.validity, s.rotations);
    }
  }

  lemma {:induction false} SpacingRun(s: State, run: seq<Action>, pace: Pace)
    requires SpacingInv(s) && IsRun(s, run, pace) && forall a :: a in run ==> KeepsConfiguration(a)
    ensures SpacingInv(After(s, run, pace)) && After(s, run, pace).validity == s.validity
    decreases |run|
  {
    if run != [] {
      var a := run[0];
      assert a in run;
      match a {
        case Check(key, noise) => IssuanceKeepsSpacing(s, RotationOptions(key, s.todo[key]), noise, true);
        case Request(o, noise, up) => IssuanceKeepsSpacing(s, o, noise, up);
        case _ =>
      }
      SpacingRun(Next(s, a), run[1..], pace);
    }
  }

  /** The times are at least the validity apart, less a third of it or, if that is longer, five minutes, and less four
      seconds. */
  predicate FarApart(first: int, second: int, validity: int) {
    var d := second - first + 4_000_000_000;
    if validity >= 900_000_000_000 then 3 * d >= 2 * validity else d + 300_000_000_000 >= validity
  }

  /** A rotation comes far after another of the same key, by the validity of the type of certificate it replaces. */
  predicate ComesFarAfter(q: Rotation, r: Rotation, v: Validity) {
    && (q.certType == Service ==> FarApart(r.time, q.time, v.service))
    && (q.certType == IngressGateway ==> FarApart(r.time, q.time, v.ingress))
    && (q.certType == Internal ==> FarApart(r.time, q.time, 315_360_000_000_000_000))
  }

  /** Rotation spacing: under constant validity and issuers, any two rotations of one key are far apart. */
  lemma RotationSpacing(s: State, run: seq<Action>, pace: Pace)
    requires Init(s) && IsRun(s, run, pace) && forall a :: a in run ==> KeepsConfiguration(a)
    ensures var rotations := After(s, run, pace).rotations;
            forall r, q :: r in rotations && q in rotations && r != q && r.key == q.key && r.time <= q.time ==>
              ComesFarAfter(q, r, s.validity)
  {
    SpacingRun(s, run, pace);
  }
}
