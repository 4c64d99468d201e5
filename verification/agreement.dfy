/**
 * The franchise agreement gate: an agreement is in force at `now` unless its end date is
 * missing or lies strictly before `now`. The same test is applied by the agreement-status
 * route, by order creation and by dispatch.
 */
module Agreement {
  import opened Results
  import opened Model

  /** The agreement is in force at `now`. */
  predicate AgreementValid(end: Option<int>, now: int) {
    end.Some? && !(end.value < now)
  }

  /** An agreement that has lapsed stays lapsed at every later instant. */
  lemma LapseIsPermanent(end: Option<int>, now: int, later: int)
    requires !AgreementValid(end, now) && now <= later
    ensures !AgreementValid(end, later)
  {
  }

  datatype AgreementState = Active | Expired

  datatype AgreementReport = AgreementReport(
    startDate: Option<int>,
    endDate: Option<int>,
    status: AgreementState)

  /** `GET /franchise/agreement`: only a franchise owner may ask; the account must exist;
      the reported status is Expired exactly when the end date is missing or before `now`. */
  function AgreementStatus(s: Store, actor: Actor, now: int): (r: Result<AgreementReport, Error>)
    ensures actor.role != FranchiseOwner ==> r == Err(Forbidden)
    ensures actor.role == FranchiseOwner && FindUserById(s.users, actor.id).None? ==> r == Err(NotFound)
    ensures r.Ok? <==> actor.role == FranchiseOwner && FindUserById(s.users, actor.id).Some?
    ensures r.Ok? ==>
      var u := s.users[FindUserById(s.users, actor.id).value];
      && r.value.startDate == u.agreementStart
      && r.value.endDate == u.agreementEnd
      && (r.value.status == Expired <==> u.agreementEnd.None? || u.agreementEnd.value < now)
  {
    if actor.role != FranchiseOwner then Err(Forbidden)
    else
      match FindUserById(s.users, actor.id)
      case None => Err(NotFound)
      case Some(i) =>
        var u := s.users[i];
        Ok(AgreementReport(u.agreementStart, u.agreementEnd,
                           if AgreementValid(u.agreementEnd, now) then Active else Expired))
  }
}
