/** The service cache reconciler, internal/controller/service_cache_controller.go.

    A pass makes at most one write, to the first child that is not as built, except that creating
    the Ingress is followed by the status update.  Built contents are opaque. */
module ServiceCache {
  import opened Wrappers

  const PROGRESSING := "Progressing"
  const HEALTHY := "Healthy"

  /** `upstreams` counts the listed static origins, of which the first is used. */
  datatype Origin = Static(upstreams: nat) | S3 | OtherOrigin

  /** The TLS pair of the service: absent, not decodable, or the data of the secret. */
  datatype Certificate = NoCertificate | Undecodable | Decoded(content: string)

  /** What the builders make of the service's spec, which is fixed, and the hash they record. */
  datatype Wanted = Wanted(
    origin: Origin,
    certificate: Certificate,
    service: string,
    deployment: string,
    ingress: string,
    hash: string -> string)

  /** A stored child: its content and its values-hash annotation. */
  datatype Child = Child(content: string, hash: Option<string>)

  datatype State = State(
    status: string,
    service: Option<Child>,
    deployment: Option<Child>,
    secret: Option<Child>,
    ingress: Option<Child>)

  predicate HashMatches(child: Option<Child>, want: Wanted, content: string) {
    child.Some? && child.value.hash == Some(want.hash(content))
  }

  /** Created or rewritten as built. */
  function Built(want: Wanted, content: string): Option<Child> {
    Some(Child(content, Some(want.hash(content))))
  }

  predicate SecretMatches(s: State, want: Wanted) {
    want.certificate.Decoded? ==> HashMatches(s.secret, want, want.certificate.content)
  }

  predicate DeploymentMatches(s: State, want: Wanted) {
    match want.origin
    case Static(_) => s.deployment.None?
    case S3 => HashMatches(s.deployment, want, want.deployment)
    case OtherOrigin => true
  }

  /** The spec crashes the pass, or makes it report an error, before the Ingress is reached. */
  predicate Blocked(want: Wanted) {
    Crashes(want) || want.certificate.Undecodable?
  }

  /** The first static origin is read without a look at how many there are. */
  predicate Crashes(want: Wanted) {
    want.origin.Static? && want.origin.upstreams == 0
  }

  /** The pass gets as far as the Ingress. */
  predicate ReachesIngress(s: State, want: Wanted) {
    && s.status != "" && !Crashes(want) && HashMatches(s.service, want, want.service) && DeploymentMatches(s, want)
    && !want.certificate.Undecodable? && SecretMatches(s, want)
  }

  /** The pass gets as far as writing the Healthy status. */
  predicate ReportsHealthy(s: State, want: Wanted) {
    ReachesIngress(s, want) && (s.ingress.None? || HashMatches(s.ingress, want, want.ingress))
  }

  /** One pass with every call answered and every deletion immediate. */
  function Pass(s: State, want: Wanted): State {
    if s.status == "" then s.(status := PROGRESSING)
    else if Crashes(want) then s
    else if !HashMatches(s.service, want, want.service) then s.(service := Built(want, want.service))
    else if !DeploymentMatches(s, want) then
      s.(deployment := if want.origin.Static? then None else Built(want, want.deployment))
    else if want.certificate.Undecodable? then s
    else if !SecretMatches(s, want) then s.(secret := Built(want, want.certificate.content))
    else if s.ingress.None? then s.(ingress := Built(want, want.ingress), status := HEALTHY)
    else if !HashMatches(s.ingress, want, want.ingress) then s.(ingress := Built(want, want.ingress))
    else s.(status := HEALTHY)
  }

  /** How far the effects of a pass got: all of them, none, or all but the status. */
  datatype Reach = Whole | Nothing | WithoutStatus

  function Attempt(s: State, want: Wanted, reach: Reach): State {
    match reach
    case Whole => Pass(s, want)
    case Nothing => s
    case WithoutStatus => Pass(s, want).(status := s.status)
  }

  /** How the pass ends: it returns without error, with one, or in a panic. */
  datatype Ending = Succeeded | Failed | Panicked

  datatype Presence = Missing | Deleting | Live

  /** The reconciler and the API server it talks to; `outcome` says how each call ends. */
  class CacheReconciler {
    const outcome: nat -> Outcome
    var calls: nat
    var status: string
    var service: Option<Child>
    var deployment: Option<Child>
    var secret: Option<Child>
    var ingress: Option<Child>

    ghost function Now(): State
      reads this
    {
      State(status, service, deployment, secret, ingress)
    }

    ghost predicate Reliable() {
      forall n: nat :: outcome(n) == Answered
    }

    constructor (s: State, outcome: nat -> Outcome)
      ensures Now() == s && this.outcome == outcome
    {
      this.outcome, calls := outcome, 0;
      status, service, deployment, secret, ingress := s.status, s.service, s.deployment, s.secret, s.ingress;
    }

    method Call() returns (o: Outcome)
      modifies this`calls
      ensures Reliable() ==> o == Answered
    {
      o, calls := outcome(calls), calls + 1;
    }

    /** The get of a child, and its creation or rewriting if its hash is missing or different; `after` is what
        becomes of it, and `go` says whether the pass goes on. */
    method Ensure(want: Wanted, content: string, child: Option<Child>)
      returns (go: bool, ending: Ending, after: Option<Child>)
      modifies this`calls
      ensures go ==> HashMatches(child, want, content) && after == child
      ensures !go ==> after == child || (!HashMatches(child, want, content) && after == Built(want, content))
      ensures !go ==> (ending == Succeeded ==> !HashMatches(child, want, content) && after == Built(want, content))
      ensures !go ==> ending != Panicked && (Reliable() ==> ending == Succeeded)
    {
      go, ending, after := false, Failed, child;
      var o := Call();
      if o != Answered {
        return;
      }
      if child.Some? && child.value.hash.Some? && child.value.hash.value == want.hash(content) {
        go := true;
        return;
      }
      o := Call();
      if o != Refused {
        if child.None? {
          after := Some(Child(content, Some(want.hash(content))));
        } else {
          after := Some(child.value.(content := content, hash := Some(want.hash(content))));
        }
      }
      ending := if o == Answered then Succeeded else Failed;
    }

    /** The get of an unwanted deployment, and its deletion. */
    method Remove(child: Option<Child>) returns (go: bool, ending: Ending, after: Option<Child>)
      modifies this`calls
      ensures go ==> child.None? && after == child
      ensures !go ==> after == child || (child.Some? && after == None)
      ensures !go ==> (ending == Succeeded ==> child.Some? && after == None)
      ensures !go ==> ending != Panicked && (Reliable() ==> ending == Succeeded)
    {
      go, ending, after := false, Failed, child;
      var o := Call();
      if o != Answered {
        return;
      }
      if child.None? {
        go := true;
        return;
      }
      o := Call();
      if o != Refused {
        after := None;
      }
      ending := if o == Answered then Succeeded else Failed;
    }

    method SetStatus(text: string) returns (ending: Ending)
      modifies this`calls, this`status
      ensures status == text || (status == old(status) && ending == Failed)
      ensures ending != Panicked && (Reliable() ==> ending == Succeeded)
    {
      var o := Call();
      if o != Refused {
        status := text;
      }
      ending := if o == Answered then Succeeded else Failed;
    }

    /** The pass as the controller runs it; `healthy` is set when it writes the Healthy status. */
    method Reconcile(want: Wanted, presence: Presence) returns (ending: Ending, healthy: bool)
      modifies this`calls, this`status, this`service, this`deployment, this`secret, this`ingress
      ensures presence != Live ==> Now() == old(Now()) && !healthy
      ensures presence == Live && ending == Succeeded ==> Now() == Pass(old(Now()), want)
      ensures exists reach :: Now() == Attempt(old(Now()), want, reach)
      ensures healthy ==>
                ReportsHealthy(old(Now()), want) &&
                (Now() == Pass(old(Now()), want) || Now().(status := HEALTHY) == Pass(old(Now()), want))
      ensures presence == Live && Reliable() ==>
                && (healthy <==> ReportsHealthy(old(Now()), want))
                && (ending == Panicked <==> old(status) != "" && Crashes(want))
                && (ending == Failed <==>
                      && old(status) != "" && !Crashes(want) && HashMatches(old(service), want, want.service)
                      && DeploymentMatches(old(Now()), want) && want.certificate.Undecodable?)
    {
      ghost var before := Now();
      assert Now() == Attempt(before, want, Nothing);
      healthy := false;
      var o := Call();
      if o != Answered {
        return Failed, false;
      }
      if presence != Live {
        return Succeeded, false;
      }
      if status == "" {
        ending := SetStatus(PROGRESSING);
        assert status == PROGRESSING ==> Now() == Attempt(before, want, Whole);
        return;
      }
      if want.origin.Static? && want.origin.upstreams == 0 {
        return Panicked, false;
      }
      var go;
      go, ending, service := Ensure(want, want.service, service);
      if !go {
        assert service != before.service ==> Now() == Attempt(before, want, Whole);
        return;
      }
      if want.origin.Static? {
        go, ending, deployment := Remove(deployment);
      } else if want.origin.S3? {
        go, ending, deployment := Ensure(want, want.deployment, deployment);
      }
      if !go {
        assert deployment != before.deployment ==> Now() == Attempt(before, want, Whole);
        return;
      }
      if !want.certificate.NoCertificate? {
        if want.certificate.Undecodable? {
          return Failed, false;
        }
        go, ending, secret := Ensure(want, want.certificate.content, secret);
        if !go {
          assert secret != before.secret ==> Now() == Attempt(before, want, Whole);
          return;
        }
      }
      var existed := ingress.Some?;
      go, ending, ingress := Ensure(want, want.ingress, ingress);
      if !go && (existed || ending != Succeeded) {
        assert ingress != before.ingress ==> Now() == Attempt(before, want, WithoutStatus);
        return;
      }
      assert Now() == Attempt(before, want, WithoutStatus);
      ending := SetStatus(HEALTHY);
      healthy := true;
      assert status == HEALTHY ==> Now() == Attempt(before, want, Whole);
    }
  }

  // ---- Truthful annotations ----

  ghost predicate Collisionless(hash: string -> string) {
    forall x, y :: hash(x) == hash(y) ==> x == y
  }

  ghost predicate Truthful(child: Option<Child>, hash: string -> string) {
    child.Some? && child.value.hash.Some? ==> child.value.hash.value == hash(child.value.content)
  }

  ghost predicate AllTruthful(s: State, hash: string -> string) {
    Truthful(s.service, hash) && Truthful(s.deployment, hash) && Truthful(s.secret, hash) && Truthful(s.ingress, hash)
  }

  /** A pass for the spec of its time, and how far it got. */
  datatype Turn = Turn(want: Wanted, reach: Reach)

  /** The state after a series of passes. */
  function Attempts(s: State, turns: seq<Turn>): State
    decreases |turns|
  {
    if turns == [] then s else Attempts(Attempt(s, turns[0].want, turns[0].reach), turns[1..])
  }

  /** As long as only this controller writes the children, a recorded hash is the hash of the content,
      over any series of passes, whole or cut short, and however the spec changes between them. */
  lemma {:induction false} PassesStayTruthful(s: State, hash: string -> string, turns: seq<Turn>)
    requires AllTruthful(s, hash) && forall t :: t in turns ==> t.want.hash == hash
    ensures AllTruthful(Attempts(s, turns), hash)
    decreases |turns|
  {
    if turns != [] {
      assert turns[0] in turns;
      PassesStayTruthful(Attempt(s, turns[0].want, turns[0].reach), hash, turns[1..]);
    }
  }

  // ---- Convergence ----

  /** The spec stays as it is. */
  ghost predicate AllFor(turns: seq<Turn>, want: Wanted) {
    forall t :: t in turns ==> t.want == want
  }

  /** The passes that had all their effects. */
  function Wholes(turns: seq<Turn>): nat
    decreases |turns|
  {
    if turns == [] then 0 else (if turns[0].reach.Whole? then 1 else 0) + Wholes(turns[1..])
  }

  ghost predicate HasContent(child: Option<Child>, content: string) {
    child.Some? && child.value.content == content
  }

  /** Every required child has the content that is built now, and an unwanted deployment is gone. */
  ghost predicate AsBuilt(s: State, want: Wanted) {
    && HasContent(s.service, want.service) && HasContent(s.ingress, want.ingress)
    && (want.origin.S3? ==> HasContent(s.deployment, want.deployment))
    && (want.origin.Static? ==> s.deployment.None?)
    && (want.certificate.Decoded? ==> HasContent(s.secret, want.certificate.content))
  }

  /** The controller's own criterion, by hashes. */
  predicate AllMatch(s: State, want: Wanted) {
    && HashMatches(s.service, want, want.service) && DeploymentMatches(s, want)
    && SecretMatches(s, want) && HashMatches(s.ingress, want, want.ingress)
  }

  lemma MatchIsAsBuilt(s: State, want: Wanted)
    requires AllTruthful(s, want.hash) && Collisionless(want.hash) && AllMatch(s, want)
    ensures AsBuilt(s, want)
  {
  }

  /** How many passes are still needed. */
  function Remaining(s: State, want: Wanted): nat {
    (if s.status == "" then 1 else 0) +
    (if HashMatches(s.service, want, want.service) then 0 else 1) +
    (if DeploymentMatches(s, want) then 0 else 1) +
    (if SecretMatches(s, want) then 0 else 1) +
    (if s.ingress.None? || HashMatches(s.ingress, want, want.ingress) then 0 else 1) +
    (if AllMatch(s, want) && s.status == HEALTHY then 0 else 1)
  }

  /** A whole pass makes progress, and one that is cut short loses none. */
  lemma AttemptMakesProgress(s: State, want: Wanted, reach: Reach)
    requires !Blocked(want)
    ensures Remaining(Attempt(s, want, reach), want) <= Remaining(s, want)
    ensures reach.Whole? && Remaining(s, want) > 0 ==> Remaining(Attempt(s, want, reach), want) < Remaining(s, want)
    ensures Remaining(s, want) == 0 ==> Attempt(s, want, reach) == s
  {
  }

  lemma {:induction false} AttemptsConverge(s: State, want: Wanted, turns: seq<Turn>)
    requires !Blocked(want) && AllFor(turns, want) && Remaining(s, want) <= Wholes(turns)
    ensures Remaining(Attempts(s, turns), want) == 0
    decreases |turns|
  {
    if turns != [] {
      assert turns[0] in turns;
      AttemptMakesProgress(s, want, turns[0].reach);
      AttemptsConverge(Attempt(s, want, turns[0].reach), want, turns[1..]);
    }
  }

  lemma {:induction false} AttemptsConcat(s: State, earlier: seq<Turn>, later: seq<Turn>)
    ensures Attempts(s, earlier + later) == Attempts(Attempts(s, earlier), later)
    decreases |earlier|
  {
    if earlier == [] {
      assert earlier + later == later;
    } else {
      assert (earlier + later)[1..] == earlier[1..] + later;
      AttemptsConcat(Attempt(s, earlier[0].want, earlier[0].reach), earlier[1..], later);
    }
  }

  /** Whatever passes there were before, for whatever specs: as soon as six passes for the present
      spec had all their effects, the service is Healthy with every required child as built, and no
      pass changes anything any more. */
  lemma SixPassesConverge(s: State, earlier: seq<Turn>, later: seq<Turn>, want: Wanted)
    requires Collisionless(want.hash) && AllTruthful(s, want.hash) && forall t :: t in earlier ==>
               t.want.hash == want.hash
    requires want.origin != Static(0) && !want.certificate.Undecodable? && AllFor(later, want) && Wholes(later) >= 6
    ensures var t := Attempts(s, earlier + later);
            AsBuilt(t, want) && t.status == "Healthy" && forall reach :: Attempt(t, want, reach) == t
  {
    var t := Attempts(s, earlier + later);
    AttemptsConcat(s, earlier, later);
    AttemptsConverge(Attempts(s, earlier), want, later);
    PassesStayTruthful(s, want.hash, earlier + later);
    MatchIsAsBuilt(t, want);
    forall reach ensures Attempt(t, want, reach) == t { AttemptMakesProgress(t, want, reach); }
  }

  /** A spec that crashes the pass, or a certificate that does not decode, keeps a service that is
      not yet Healthy from ever becoming so. */
  lemma {:induction false} BlockedNeverHealthy(s: State, want: Wanted, turns: seq<Turn>)
    requires (want.origin == Static(0) || want.certificate.Undecodable?) && AllFor(turns, want) && s.status != "Healthy"
    ensures Attempts(s, turns).status != "Healthy"
    decreases |turns|
  {
    if turns != [] {
      assert turns[0] in turns;
      BlockedNeverHealthy(Attempt(s, want, turns[0].reach), want, turns[1..]);
    }
  }

  /** Hence a service that is not Healthy becomes so by six whole passes if and only if its spec
      blocks none of them. */
  lemma HealthyIffNotBlocked(s: State, want: Wanted, turns: seq<Turn>)
    requires AllFor(turns, want) && s.status != "Healthy" && Wholes(turns) >= 6
    ensures Attempts(s, turns).status == "Healthy" <==> want.origin != Static(0) && !want.certificate.Undecodable?
  {
    if Blocked(want) {
      BlockedNeverHealthy(s, want, turns);
    } else {
      AttemptsConverge(s, want, turns);
    }
  }

  /** Five passes are not always enough. */
  lemma FivePassesMayNotSuffice(want: Wanted)
    requires want.origin.S3? && want.certificate.Decoded?
    ensures var s, t := State("", None, None, None, Some(Child(want.ingress, None))), Turn(want, Whole);
            Attempts(s, [t, t, t, t, t]).status != "Healthy"
  {
    var t := Turn(want, Whole);
    var s1 := State(PROGRESSING, None, None, None, Some(Child(want.ingress, None)));
    var s2 := s1.(service := Built(want, want.service));
    var s3 := s2.(deployment := Built(want, want.deployment));
    var s4 := s3.(secret := Built(want, want.certificate.content));
    var s5 := s4.(ingress := Built(want, want.ingress));
    var s0 := s1.(status := "");
    assert Pass(s0, want) == s1 && Pass(s1, want) == s2 && Pass(s2, want) == s3;
    assert Pass(s3, want) == s4 && Pass(s4, want) == s5;
    OneMoreWhole(s0, want, [t, t, t, t]);
    OneMoreWhole(s1, want, [t, t, t]);
    OneMoreWhole(s2, want, [t, t]);
    OneMoreWhole(s3, want, [t]);
    OneMoreWhole(s4, want, []);
  }

  lemma OneMoreWhole(s: State, want: Wanted, turns: seq<Turn>)
    ensures Attempts(s, [Turn(want, Whole)] + turns) == Attempts(Pass(s, want), turns)
  {
    assert ([Turn(want, Whole)] + turns)[1..] == turns;
  }

  /** A new service is first marked Progressing; after that a pass changes at most one child, and only
      to what is built for it or, for a deployment that a Static origin does not need, to none. */
  lemma OneChildPerPass(s: State, want: Wanted)
    ensures var t := Pass(s, want);
            && (s.status == "" ==> t == s.(status := "Progressing"))
            && (t.service == s.service || t == s.(service := Some(Child(want.service, Some(want.hash(want.service))))))
            && (t.deployment == s.deployment ||
                (want.origin.S3? && t == s.(deployment :=
                  Some(Child(want.deployment, Some(want.hash(want.deployment)))))) ||
                (want.origin.Static? && t == s.(deployment := None)))
            && (t.secret == s.secret ||
                (want.certificate.Decoded? &&
                 t == s.(secret := Some(Child(want.certificate.content, Some(want.hash(want.certificate.content)))))))
            && (t.ingress == s.ingress ||
                t == s.(ingress := Some(Child(want.ingress, Some(want.hash(want.ingress)))), status := t.status))
            && (t.status == s.status || t.status == "Progressing" || t.status == "Healthy")
  {
  }

  /** The child records the hash of what is built now. */
  ghost predicate UpToDate(child: Option<Child>, want: Wanted, content: string) {
    child.Some? && child.value.hash == Some(want.hash(content))
  }

  /** Children come in order: each is written only when those before it are up to date, and the Ingress
      and the Healthy status only when all are. */
  lemma ChildrenInOrder(s: State, want: Wanted)
    ensures var t := Pass(s, want);
            && (t.deployment != s.deployment || t.secret != s.secret || t.ingress != s.ingress ||
                (t.status == "Healthy" && s.status != "Healthy") ==>
                  UpToDate(s.service, want, want.service))
            && (t.secret != s.secret || t.ingress != s.ingress || (t.status == "Healthy" && s.status != "Healthy") ==>
                  && (want.origin.S3? ==> UpToDate(s.deployment, want, want.deployment))
                  && (want.origin.Static? ==> s.deployment.None?))
            && (t.ingress != s.ingress || (t.status == "Healthy" && s.status != "Healthy") ==>
                  want.certificate.Decoded? ==> UpToDate(s.secret, want, want.certificate.content))
            && (t.status == "Healthy" && s.status != "Healthy" ==> UpToDate(t.ingress, want, want.ingress))
  {
  }

  /** Healthy is written, for the first time or again, only in a pass that leaves every required
      child as built, and a status that becomes Healthy was written by such a pass. */
  lemma HealthyMeansAsBuilt(s: State, want: Wanted)
    requires Collisionless(want.hash) && AllTruthful(s, want.hash)
    ensures ReportsHealthy(s, want) ==> AsBuilt(Pass(s, want), want) && Pass(s, want).status == "Healthy"
    ensures s.status != "Healthy" && Pass(s, want).status == "Healthy" ==>
              ReportsHealthy(s, want) && AsBuilt(Pass(s, want), want)
  {
    if ReportsHealthy(s, want) {
      var t := Pass(s, want);
      assert AllTruthful(t, want.hash);
      MatchIsAsBuilt(t, want);
    }
  }
}
