/** Which deployment broke what: `deploymentCarrying` and `incidentsByDeployment` of back/src/dora/dora-metrics.ts. */
module Blame {
  import opened Carriers
  import opened DoraEvents
  import opened Lists
  import opened Options

  type Linked = map<Deployment, seq<Incident>>

  function Earliest(landings: seq<Deployment>): Option<Deployment> {
    if landings == [] then None
    else
      var n := |landings| - 1;
      var earliest := Earliest(landings[..n]);
      if earliest.None? || landings[n].createdAt < earliest.value.createdAt then Some(landings[n]) else earliest
  }

  function DeploymentCarrying(pr: MergedPr, carriers: Carriers): Option<Deployment> {
    Earliest(if pr in carriers then carriers[pr] else [])
  }

  ghost predicate IsEarliest(landings: seq<Deployment>, i: int) {
    && 0 <= i < |landings|
    && (forall j :: 0 <= j < i ==> landings[i].createdAt < landings[j].createdAt)
    && (forall j :: i <= j < |landings| ==> landings[i].createdAt <= landings[j].createdAt)
  }

  /** The first of the landings that nothing precedes. */
  lemma {:induction false} EarliestIsFirst(landings: seq<Deployment>)
    ensures Earliest(landings).None? <==> landings == []
    ensures landings != [] ==> exists i :: IsEarliest(landings, i) && Earliest(landings) == Some(landings[i])
  {
    if landings != [] {
      var n := |landings| - 1;
      EarliestIsFirst(landings[..n]);
      if n > 0 {
        var i :| IsEarliest(landings[..n], i) && Earliest(landings[..n]) == Some(landings[..n][i]);
        var k := if landings[n].createdAt < landings[i].createdAt then n else i;
        assert IsEarliest(landings, k) && Earliest(landings) == Some(landings[k]);
      } else {
        assert IsEarliest(landings, 0);
      }
    }
  }

  /** The deployment a ticket leads to: that of the last request mentioning it that was carried. */
  function TicketCarrier(prs: seq<MergedPr>, carriers: Carriers, ticket: Ticket): Option<Deployment> {
    if prs == [] then None
    else
      var pr := prs[|prs| - 1];
      if ticket in pr.tickets && DeploymentCarrying(pr, carriers).Some? then DeploymentCarrying(pr, carriers)
      else TicketCarrier(prs[..|prs| - 1], carriers, ticket)
  }

  /** The first ticket leading to a deployment that the incident did not precede. */
  function FirstCause(tickets: seq<Ticket>, openedAt: int, prs: seq<MergedPr>, carriers: Carriers): Option<Deployment> {
    if tickets == [] then None
    else
      var d := TicketCarrier(prs, carriers, tickets[0]);
      if d.Some? && d.value.createdAt <= openedAt then d else FirstCause(tickets[1..], openedAt, prs, carriers)
  }

  function Culprit(prs: seq<MergedPr>, carriers: Carriers): Incident -> Option<Deployment> {
    (i: Incident) => FirstCause(i.tickets, i.openedAt, prs, carriers)
  }

  function LinkedTo(linked: Linked): Deployment -> seq<Incident> {
    (d: Deployment) => if d in linked then linked[d] else []
  }

  function Bucket(incidents: seq<Incident>, prs: seq<MergedPr>, carriers: Carriers, d: Deployment): seq<Incident> {
    FirstSeen(Filter(incidents, Keyed(Culprit(prs, carriers), Some(d))), Self)
  }

  /** Each bucket holds the incidents its deployment is the culprit of, once each. */
  ghost predicate IsLinked(linked: Linked, incidents: seq<Incident>, prs: seq<MergedPr>, carriers: Carriers) {
    && (forall d :: LinkedTo(linked)(d) == Bucket(incidents, prs, carriers, d))
    && (forall d :: d in linked ==> linked[d] != [])
  }

  method TicketCarriers(prs: seq<MergedPr>, carriers: Carriers) returns (carrier: map<Ticket, Deployment>)
    ensures forall t :: Get(carrier, t) == TicketCarrier(prs, carriers, t)
  {
    carrier := map[];
    for i := 0 to |prs|
      invariant forall t :: Get(carrier, t) == TicketCarrier(prs[..i], carriers, t)
    {
      assert prs[..i + 1][..i] == prs[..i];
      var deployment := DeploymentCarrying(prs[i], carriers);
      if deployment.Some? {
        ghost var before := carrier;
        for j := 0 to |prs[i].tickets|
          invariant forall t :: Get(carrier, t) == if t in prs[i].tickets[..j] then deployment else Get(before, t)
        {
          assert prs[i].tickets[..j + 1] == prs[i].tickets[..j] + [prs[i].tickets[j]];
          carrier := carrier[prs[i].tickets[j] := deployment.value];
        }
        assert prs[i].tickets[..|prs[i].tickets|] == prs[i].tickets;
      }
    }
    assert prs[..|prs|] == prs;
  }

  method FindCulprit(incident: Incident, carrier: map<Ticket, Deployment>, ghost prs: seq<MergedPr>,
                     ghost carriers: Carriers)
    returns (culprit: Option<Deployment>)
    requires forall t :: Get(carrier, t) == TicketCarrier(prs, carriers, t)
    ensures culprit == Culprit(prs, carriers)(incident)
  {
    for j := 0 to |incident.tickets|
      invariant FirstCause(incident.tickets[j..], incident.openedAt, prs, carriers) == Culprit(prs, carriers)(incident)
    {
      var deployment := Get(carrier, incident.tickets[j]);
      assert incident.tickets[j..][1..] == incident.tickets[j + 1..];
      if deployment.Some? && deployment.value.createdAt <= incident.openedAt {
        return deployment;
      }
    }
    culprit := None;
  }

  method IncidentsByDeployment(incidents: seq<Incident>, prs: seq<MergedPr>, carriers: Carriers)
    returns (linked: Linked)
    ensures IsLinked(linked, incidents, prs, carriers)
  {
    var carrier := TicketCarriers(prs, carriers);
    linked := map[];
    for i := 0 to |incidents|
      invariant IsLinked(linked, incidents[..i], prs, carriers)
    {
      var culprit := FindCulprit(incidents[i], carrier, prs, carriers);
      LinkNext(linked, incidents, i, prs, carriers);
      linked := Link(linked, culprit, incidents[i]);
    }
    assert incidents[..|incidents|] == incidents;
  }

  lemma BucketNext(incidents: seq<Incident>, i: nat, prs: seq<MergedPr>, carriers: Carriers, d: Deployment)
    requires i < |incidents|
    ensures var held := Bucket(incidents[..i], prs, carriers, d);
      Bucket(incidents[..i + 1], prs, carriers, d)
        == if Culprit(prs, carriers)(incidents[i]) == Some(d) && incidents[i] !in held then held + [incidents[i]]
           else held
  {
    var blamed := Filter(incidents[..i], Keyed(Culprit(prs, carriers), Some(d)));
    FilterNext(incidents, i, Keyed(Culprit(prs, carriers), Some(d)));
    FirstSeenSnoc(blamed, incidents[i], Self);
    assert blamed + [] == blamed;
  }

  function Link(linked: Linked, culprit: Option<Deployment>, incident: Incident): Linked {
    if culprit.None? then linked
    else
      var bucket := LinkedTo(linked)(culprit.value);
      linked[culprit.value := if incident in bucket then bucket else bucket + [incident]]
  }

  lemma {:induction false} LinkNext(linked: Linked, incidents: seq<Incident>, i: nat, prs: seq<MergedPr>,
                                    carriers: Carriers)
    requires i < |incidents| && IsLinked(linked, incidents[..i], prs, carriers)
    ensures IsLinked(Link(linked, Culprit(prs, carriers)(incidents[i]), incidents[i]), incidents[..i + 1], prs,
                     carriers)
  {
    var next := Link(linked, Culprit(prs, carriers)(incidents[i]), incidents[i]);
    forall d ensures LinkedTo(next)(d) == Bucket(incidents[..i + 1], prs, carriers, d) {
      assert LinkedTo(linked)(d) == Bucket(incidents[..i], prs, carriers, d);
      LinkNextAt(linked, incidents, i, prs, carriers, d);
    }
    forall d | d in next ensures next[d] != [] {
      LinkedNext(linked, Culprit(prs, carriers)(incidents[i]), incidents[i], d);
    }
  }

  lemma {:induction false} LinkNextAt(linked: Linked, incidents: seq<Incident>, i: nat, prs: seq<MergedPr>,
                                      carriers: Carriers, d: Deployment)
    requires i < |incidents| && LinkedTo(linked)(d) == Bucket(incidents[..i], prs, carriers, d)
    ensures LinkedTo(Link(linked, Culprit(prs, carriers)(incidents[i]), incidents[i]))(d)
            == Bucket(incidents[..i + 1], prs, carriers, d)
  {
    BucketNext(incidents, i, prs, carriers, d);
    LinkedNext(linked, Culprit(prs, carriers)(incidents[i]), incidents[i], d);
  }

  lemma LinkedNext(linked: Linked, culprit: Option<Deployment>, incident: Incident, d: Deployment)
    ensures var held := LinkedTo(linked)(d);
      LinkedTo(Link(linked, culprit, incident))(d) == if culprit == Some(d) && incident !in held then held + [incident]
                                                      else held
  {
  }

  // ─── When there is somebody to blame ───

  /** The request at `k` is the last mentioning the ticket to have been carried at all. */
  predicate IsLastCarried(k: int, t: Ticket, prs: seq<MergedPr>, carriers: Carriers) {
    && 0 <= k < |prs| && t in prs[k].tickets && DeploymentCarrying(prs[k], carriers).Some?
    && forall j :: k < j < |prs| && t in prs[j].tickets ==> DeploymentCarrying(prs[j], carriers).None?
  }

  lemma {:induction false} TicketCarrierIsLast(prs: seq<MergedPr>, carriers: Carriers, t: Ticket)
    ensures match TicketCarrier(prs, carriers, t)
            case None => forall pr :: pr in prs && t in pr.tickets ==> DeploymentCarrying(pr, carriers).None?
            case Some(d) => exists k :: IsLastCarried(k, t, prs, carriers)
                                        && DeploymentCarrying(prs[k], carriers) == Some(d)
  {
    if prs != [] {
      var n := |prs| - 1;
      TicketCarrierIsLast(prs[..n], carriers, t);
      assert prs == prs[..n] + [prs[n]];
      if t in prs[n].tickets && DeploymentCarrying(prs[n], carriers).Some? {
        assert IsLastCarried(n, t, prs, carriers);
      } else if TicketCarrier(prs[..n], carriers, t).Some? {
        var d := TicketCarrier(prs[..n], carriers, t);
        var k :| IsLastCarried(k, t, prs[..n], carriers) && DeploymentCarrying(prs[..n][k], carriers) == d;
        assert IsLastCarried(k, t, prs, carriers) && prs[..n][k] == prs[k];
      }
    }
  }

  /** A ticket leads to a deployment the incident did not precede. */
  predicate Leads(t: Ticket, openedAt: int, prs: seq<MergedPr>, carriers: Carriers) {
    var d := TicketCarrier(prs, carriers, t);
    d.Some? && d.value.createdAt <= openedAt
  }

  lemma {:induction false} CauseIffSomeTicketLeads(tickets: seq<Ticket>, openedAt: int, prs: seq<MergedPr>,
                                                   carriers: Carriers)
    ensures FirstCause(tickets, openedAt, prs, carriers).Some? <==>
        exists t :: t in tickets && Leads(t, openedAt, prs, carriers)
  {
    if tickets != [] {
      CauseIffSomeTicketLeads(tickets[1..], openedAt, prs, carriers);
      assert forall t :: t in tickets <==> t == tickets[0] || t in tickets[1..];
      assert Leads(tickets[0], openedAt, prs, carriers) ==> FirstCause(tickets, openedAt, prs, carriers).Some?;
    }
  }

  lemma LeadsIff(t: Ticket, openedAt: int, prs: seq<MergedPr>, carriers: Carriers)
    ensures Leads(t, openedAt, prs, carriers) <==>
      exists k :: IsLastCarried(k, t, prs, carriers) && DeploymentCarrying(prs[k], carriers).value.createdAt <= openedAt
  {
    TicketCarrierIsLast(prs, carriers, t);
  }

  /** One of the incident's tickets was last shipped, by any request, no later than it opened. */
  ghost predicate LastShippedBefore(i: Incident, prs: seq<MergedPr>, carriers: Carriers) {
    exists t, k :: t in i.tickets && IsLastCarried(k, t, prs, carriers)
                   && DeploymentCarrying(prs[k], carriers).value.createdAt <= i.openedAt
  }

  /**
   * An incident is counted against a deployment exactly where one of its tickets
   * was last shipped before it opened. A trail leading to an earlier deployment is
   * not enough: see `LaterWorkHidesTheCause`.
   */
  lemma BlamedIff(i: Incident, prs: seq<MergedPr>, carriers: Carriers)
    ensures Culprit(prs, carriers)(i).Some? <==> LastShippedBefore(i, prs, carriers)
  {
    CauseIffSomeTicketLeads(i.tickets, i.openedAt, prs, carriers);
    forall t ensures Leads(t, i.openedAt, prs, carriers) <==>
      exists k :: IsLastCarried(k, t, prs, carriers)
                  && DeploymentCarrying(prs[k], carriers).value.createdAt <= i.openedAt
    {
      LeadsIff(t, i.openedAt, prs, carriers);
    }
  }

  /**
   * A request that ships the same ticket after the incident, such as its fix,
   * takes the ticket over: the deployment that carried the cause goes unblamed.
   */
  lemma LaterWorkHidesTheCause(cause: MergedPr, fix: MergedPr, broke: Deployment, repaired: Deployment, i: Incident,
                               t: Ticket,
                               key: Option<string>)
    requires cause.tickets == [t] && fix.tickets == [t] && i.tickets == [t] && cause != fix
    requires ShippedInTurn(cause, fix, broke, repaired, key) && broke.createdAt <= i.openedAt < fix.mergedAt
    ensures var prs, carriers := [cause, fix], map[cause := [broke], fix := [repaired]];
      && IsCarriers(carriers, prs, [broke, repaired], key)
      && Explains(cause, broke, i, prs, carriers)
      && Culprit([cause], carriers)(i) == Some(broke)
      && Culprit(prs, carriers)(i) == None
  {
    var prs, carriers := [cause, fix], map[cause := [broke], fix := [repaired]];
    InTurnAreCarriers(cause, fix, broke, repaired, key);
    EarliestIsFirst([broke]);
    EarliestIsFirst([repaired]);
    assert carriers[cause] == [broke] && carriers[fix] == [repaired];
    assert DeploymentCarrying(cause, carriers) == Some(broke) && DeploymentCarrying(fix, carriers) == Some(repaired);
    assert TicketCarrier(prs, carriers, t) == Some(repaired);
    assert TicketCarrier([cause], carriers, t) == Some(broke);
    assert [t][1..] == [] && FirstCause([t][1..], i.openedAt, prs, carriers) == None;
  }

  /** Two requests of one repository, the second merged once the first had shipped, then shipped in its turn. */
  predicate ShippedInTurn(cause: MergedPr, fix: MergedPr, broke: Deployment, repaired: Deployment,
                          key: Option<string>) {
    && broke.status.Success? && repaired.status.Success?
    && cause.repo == fix.repo == broke.repo == repaired.repo && broke.environment == repaired.environment
    && cause.mergedAt <= broke.createdAt < fix.mergedAt <= repaired.createdAt
    && SameComponent(key, cause.dimensions, broke.dimensions) && SameComponent(key, fix.dimensions, repaired.dimensions)
  }

  lemma InTurnAreCarriers(cause: MergedPr, fix: MergedPr, broke: Deployment, repaired: Deployment, key: Option<string>)
    requires cause != fix && ShippedInTurn(cause, fix, broke, repaired, key)
    ensures IsCarriers(map[cause := [broke], fix := [repaired]], [cause, fix], [broke, repaired], key)
  {
    var deployments := [broke, repaired];
    assert Eligible(broke, cause, deployments, key) && Eligible(repaired, fix, deployments, key);
    assert IsFirstLanding(broke, cause, deployments, key) && IsFirstLanding(repaired, fix, deployments, key);
    assert Reaches([broke], broke.environment) by { assert broke in [broke]; }
    assert Reaches([repaired], broke.environment) by { assert repaired in [repaired]; }
  }

  // ─── What blame means ───

  /** The request shares a ticket with the incident and was first carried by this deployment. */
  predicate Explains(pr: MergedPr, d: Deployment, i: Incident, prs: seq<MergedPr>, carriers: Carriers) {
    pr in prs && DeploymentCarrying(pr, carriers) == Some(d) && exists t :: t in pr.tickets && t in i.tickets
  }

  lemma {:induction false} CauseHasTicket(tickets: seq<Ticket>, openedAt: int, prs: seq<MergedPr>, carriers: Carriers)
    ensures var d := FirstCause(tickets, openedAt, prs, carriers);
      d.Some? ==> d.value.createdAt <= openedAt && exists t :: t in tickets && TicketCarrier(prs, carriers, t) == d
  {
    if tickets != [] {
      CauseHasTicket(tickets[1..], openedAt, prs, carriers);
    }
  }

  /** In a bucket, and in which: no more than the culprit's own. */
  lemma InBucketIff(linked: Linked, incidents: seq<Incident>, prs: seq<MergedPr>, carriers: Carriers, d: Deployment,
                    i: Incident)
    requires IsLinked(linked, incidents, prs, carriers)
    ensures i in LinkedTo(linked)(d) <==> i in incidents && Culprit(prs, carriers)(i) == Some(d)
    ensures NoDuplicates(LinkedTo(linked)(d))
  {
    var blamed := Filter(incidents, Keyed(Culprit(prs, carriers), Some(d)));
    if i in LinkedTo(linked)(d) {
      var x :| x in blamed && Self(x) == i;
    }
    if i in blamed {
      assert Self(i) in FirstSeen(blamed, Self);
    }
  }

  // ─── Which of several tickets decides ───

  /** The last request mentioning the ticket to be carried at all was carried by this deployment. */
  ghost predicate LastShippedWith(t: Ticket, d: Deployment, prs: seq<MergedPr>, carriers: Carriers) {
    exists k :: IsLastCarried(k, t, prs, carriers) && DeploymentCarrying(prs[k], carriers) == Some(d)
  }

  lemma CarrierIff(t: Ticket, d: Deployment, prs: seq<MergedPr>, carriers: Carriers)
    ensures TicketCarrier(prs, carriers, t) == Some(d) <==> LastShippedWith(t, d, prs, carriers)
  {
    TicketCarrierIsLast(prs, carriers, t);
    if LastShippedWith(t, d, prs, carriers) {
      var k :| IsLastCarried(k, t, prs, carriers) && DeploymentCarrying(prs[k], carriers) == Some(d);
      assert prs[k] in prs;
      var l :| IsLastCarried(l, t, prs, carriers)
               && DeploymentCarrying(prs[l], carriers) == TicketCarrier(prs, carriers, t);
      assert k == l;
    }
  }

  /** The ticket at `j` leads to the deployment, and no ticket before it leads to any. */
  predicate LeadsFirst(j: int, tickets: seq<Ticket>, openedAt: int, d: Deployment, prs: seq<MergedPr>,
                       carriers: Carriers) {
    && 0 <= j < |tickets| && TicketCarrier(prs, carriers, tickets[j]) == Some(d) && d.createdAt <= openedAt
    && forall m :: 0 <= m < j ==> !Leads(tickets[m], openedAt, prs, carriers)
  }

  lemma {:induction false} CauseLeadsFirst(tickets: seq<Ticket>, openedAt: int, d: Deployment, prs: seq<MergedPr>,
                                           carriers: Carriers)
    ensures FirstCause(tickets, openedAt, prs, carriers) == Some(d)
       <==> exists j :: LeadsFirst(j, tickets, openedAt, d, prs, carriers)
  {
    if tickets != [] {
      if Leads(tickets[0], openedAt, prs, carriers) {
        assert FirstCause(tickets, openedAt, prs, carriers) == Some(d) ==>
            LeadsFirst(0, tickets, openedAt, d, prs, carriers);
      } else {
        CauseLeadsFirst(tickets[1..], openedAt, d, prs, carriers);
        if FirstCause(tickets, openedAt, prs, carriers) == Some(d) {
          var j :| LeadsFirst(j, tickets[1..], openedAt, d, prs, carriers);
          assert LeadsFirst(j + 1, tickets, openedAt, d, prs, carriers);
        }
        if j :| LeadsFirst(j, tickets, openedAt, d, prs, carriers) {
          assert LeadsFirst(j - 1, tickets[1..], openedAt, d, prs, carriers);
        }
      }
    }
  }

  /**
   * The ticket at `j` decides: it was last shipped by the deployment, no later than
   * the incident opened, and each ticket before it by nothing, or after the incident.
   */
  ghost predicate DecidesFor(j: int, i: Incident, d: Deployment, prs: seq<MergedPr>, carriers: Carriers) {
    && 0 <= j < |i.tickets| && LastShippedWith(i.tickets[j], d, prs, carriers) && d.createdAt <= i.openedAt
    && forall m, e :: 0 <= m < j && LastShippedWith(i.tickets[m], e, prs, carriers) ==> i.openedAt < e.createdAt
  }

  lemma DecidesIffLeadsFirst(j: int, i: Incident, d: Deployment, prs: seq<MergedPr>, carriers: Carriers)
    ensures DecidesFor(j, i, d, prs, carriers) <==> LeadsFirst(j, i.tickets, i.openedAt, d, prs, carriers)
  {
    if 0 <= j < |i.tickets| {
      CarrierIff(i.tickets[j], d, prs, carriers);
      forall m, e | 0 <= m < j
        ensures LastShippedWith(i.tickets[m], e, prs, carriers) <==>
            TicketCarrier(prs, carriers, i.tickets[m]) == Some(e)
      {
        CarrierIff(i.tickets[m], e, prs, carriers);
      }
      if DecidesFor(j, i, d, prs, carriers) {
        forall m | 0 <= m < j ensures !Leads(i.tickets[m], i.openedAt, prs, carriers) {
          var carrier := TicketCarrier(prs, carriers, i.tickets[m]);
          assert carrier.Some? ==> LastShippedWith(i.tickets[m], carrier.value, prs, carriers);
        }
      }
      if LeadsFirst(j, i.tickets, i.openedAt, d, prs, carriers) {
        assert forall m :: 0 <= m < j ==> !Leads(i.tickets[m], i.openedAt, prs, carriers);
      }
    }
  }

  /** An incident is charged to a deployment exactly where one of its tickets decides for it. */
  lemma ChargedIffTicketDecides(linked: Linked, incidents: seq<Incident>, prs: seq<MergedPr>, carriers: Carriers,
                                d: Deployment, i: Incident)
    requires IsLinked(linked, incidents, prs, carriers)
    ensures d in linked && i in linked[d] <==> i in incidents && exists j :: DecidesFor(j, i, d, prs, carriers)
  {
    InBucketIff(linked, incidents, prs, carriers, d, i);
    CauseLeadsFirst(i.tickets, i.openedAt, d, prs, carriers);
    forall j ensures DecidesFor(j, i, d, prs, carriers) <==> LeadsFirst(j, i.tickets, i.openedAt, d, prs, carriers) {
      DecidesIffLeadsFirst(j, i, d, prs, carriers);
    }
  }

  /**
   * Blame is causal and unique. The deployment an incident is counted against was
   * the first to carry a request sharing a ticket with it: same repository, a
   * success, of the request's deployable, after its merge and not after the
   * incident. No other deployment is charged with the same incident.
   */
  lemma BlameIsCausalAndUnique(linked: Linked, incidents: seq<Incident>, prs: seq<MergedPr>, carriers: Carriers,
                               deployments: seq<Deployment>, key: Option<string>, d: Deployment, i: Incident)
    requires IsLinked(linked, incidents, prs, carriers) && IsCarriers(carriers, prs, deployments, key)
    requires d in linked && i in linked[d]
    ensures d.createdAt <= i.openedAt
    ensures exists pr :: Explains(pr, d, i, prs, carriers) && FirstToCarry(d, pr, deployments, key)
    ensures forall e :: e in linked && i in linked[e] ==> e == d
  {
    InBucketIff(linked, incidents, prs, carriers, d, i);
    CauseHasTicket(i.tickets, i.openedAt, prs, carriers);
    var t :| t in i.tickets && TicketCarrier(prs, carriers, t) == Some(d);
    TicketCarrierIsLast(prs, carriers, t);
    var k :| IsLastCarried(k, t, prs, carriers) && DeploymentCarrying(prs[k], carriers) == Some(d);
    var pr := prs[k];
    CarryingIsFirst(pr, carriers, prs, deployments, key);
    assert Explains(pr, d, i, prs, carriers);
    forall e | e in linked && i in linked[e] ensures e == d {
      InBucketIff(linked, incidents, prs, carriers, e, i);
    }
  }

  ghost predicate FirstToCarry(d: Deployment, pr: MergedPr, deployments: seq<Deployment>, key: Option<string>) {
    Eligible(d, pr, deployments, key) && forall l :: Eligible(l, pr, deployments, key) ==> d.createdAt <= l.createdAt
  }

  /** Over all environments at once: no eligible deployment precedes the one a request is said to be carried by. */
  lemma {:induction false} CarryingIsFirst(pr: MergedPr, carriers: Carriers, prs: seq<MergedPr>,
                                           deployments: seq<Deployment>, key: Option<string>)
    requires IsCarriers(carriers, prs, deployments, key) && pr in prs
    ensures match DeploymentCarrying(pr, carriers)
            case None => forall d :: !Eligible(d, pr, deployments, key)
            case Some(d) => FirstToCarry(d, pr, deployments, key)
  {
    if pr in carriers {
      var landings := carriers[pr];
      EarliestIsFirst(landings);
      var d :| Eligible(d, pr, deployments, key);
      assert Reaches(landings, d.environment);
      var i :| IsEarliest(landings, i) && Earliest(landings) == Some(landings[i]);
      forall l | Eligible(l, pr, deployments, key) ensures landings[i].createdAt <= l.createdAt {
        assert Reaches(landings, l.environment);
        var j :| 0 <= j < |landings| && landings[j].environment == l.environment;
        assert IsFirstLanding(landings[j], pr, deployments, key);
        assert landings[i].createdAt <= landings[j].createdAt;
      }
      assert IsFirstLanding(landings[i], pr, deployments, key);
    } else {
      assert Earliest([]).None?;
    }
  }
}
