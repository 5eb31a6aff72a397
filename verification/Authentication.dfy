/** The authentication verdict of an access question: what the account alone says, and how it agrees with the
    authorization verdict on the same answers. */
module Authentication {
  import opened Common
  import opened Access

  /** The parts of the account that decide a login. None: not readable by this identity. */
  datatype AccountFacts = AccountFacts(disabled: Option<bool>, principalExpired: Option<bool>)

  datatype Account = Account(present: Option<bool>, preserved: bool, facts: AccountFacts)

  const UNREAD := Account(None, false, AccountFacts(None, None))

  datatype Verdict = REFUSED | UNDECIDED | NOT_VERIFIED

  /** What reading the user leaves behind. Of a preserved user nothing more is read. */
  function ReadAccount(answer: Response<UserEntry>, facts: AccountFacts): Account {
    match answer
    case Failed(error) => if error == NotFound then UNREAD.(present := Some(false)) else UNREAD
    case Answer(user) =>
      if user.uid == "" then UNREAD
      else if user.preserved then UNREAD.(present := Some(true), preserved := true)
      else Account(Some(true), false, facts)
  }

  function VerdictOf(unavailable: bool, trustedDomain: bool, a: Account): Verdict {
    if unavailable && a.present == None then UNDECIDED
    else if trustedDomain then UNDECIDED
    else if a.present == Some(false) then REFUSED
    else if a.preserved then REFUSED
    else if a.present == None then UNDECIDED
    else if a.facts.disabled == Some(true) || a.facts.principalExpired == Some(true) then REFUSED
    else if a.facts.disabled == None then UNDECIDED
    else NOT_VERIFIED
  }

  /** The cascade spelled out: a refusal exactly when FreeIPA answered that the user is missing, preserved,
      disabled or expired; and open exactly when the account, or its disabled flag, could not be read. */
  lemma VerdictIsExact(unavailable: bool, trustedDomain: bool, answer: Response<UserEntry>, facts: AccountFacts)
    requires unavailable ==> answer.Failed? && answer.error != NotFound
    ensures
      var v := VerdictOf(unavailable, trustedDomain, ReadAccount(answer, facts));
      var read := answer.Answer? && answer.value.uid != "";
      && (v == REFUSED <==>
            !trustedDomain
            && (answer == Failed(NotFound)
                || (read && (answer.value.preserved || facts.disabled == Some(true) || facts.principalExpired == Some(true)))))
      && (v == UNDECIDED <==>
            || trustedDomain
            || (answer != Failed(NotFound) && !read)
            || (read && !answer.value.preserved && facts.disabled == None && facts.principalExpired != Some(true)))
  {
  }

  /** Once FreeIPA's evaluation decides the authorization, the account was read and exists: authentication is then refused
      only for a disabled or an expired account, and open only if the disabled flag is hidden. */
  lemma DecidedAccountsExist(unavailable: bool, trustedDomain: bool, d: Decisive, facts: AccountFacts, later: bool)
    requires Access.Verdict(unavailable, trustedDomain, d) != State.UNKNOWN
    ensures
      var v := VerdictOf(later, trustedDomain, ReadAccount(d.user, facts));
      && (v == REFUSED <==> facts.disabled == Some(true) || facts.principalExpired == Some(true))
      && (v == UNDECIDED <==> facts.disabled == None && facts.principalExpired != Some(true))
  {
  }
}
