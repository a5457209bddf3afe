/** validateBasic: the structural check run on every create and update payload. */
module Validation {
  import opened Types

  const MaxItems: nat := 5
  /** 3500 in currency units. */
  const MaxTotal: Cents := 350000

  /** JavaScript truthiness of `user_id`: present and not 0. */
  predicate UserGiven(u: Option<UserId>) {
    u.Some? && u.value != 0
  }

  /** JavaScript truthiness of `status`: present and not the empty string. */
  predicate StatusGiven(s: Option<string>) {
    s.Some? && s.value != ""
  }

  /** Accepts or names the first rule broken. In create mode (`isPost`) the
      user, the status and an array of details are required, in that order;
      whenever details are given as an array they must hold 1 to MaxItems lines. */
  function Validate(p: Payload, isPost: bool): (r: Outcome)
    ensures isPost && !UserGiven(p.userId) ==> r == Fail(UserIdRequired)
    ensures isPost && UserGiven(p.userId) && !StatusGiven(p.status) ==> r == Fail(StatusRequired)
    ensures isPost && UserGiven(p.userId) && StatusGiven(p.status) && !p.details.Lines? ==>
              r == Fail(DetailsRequired)
    ensures r.Fail? && !isPost ==> p.details.Lines?
    ensures (!isPost || (UserGiven(p.userId) && StatusGiven(p.status))) && p.details.Lines? ==>
              (|p.details.lines| == 0 ==> r == Fail(TooFewItems)) &&
              (|p.details.lines| > MaxItems ==> r == Fail(TooManyItems))
    ensures !isPost && !p.details.Lines? ==> r == Pass
    ensures r.Pass? <==>
              (isPost ==> UserGiven(p.userId) && StatusGiven(p.status) && p.details.Lines?) &&
              (p.details.Lines? ==> 1 <= |p.details.lines| <= MaxItems)
  {
    if isPost && !UserGiven(p.userId) then Fail(UserIdRequired)
    else if isPost && !StatusGiven(p.status) then Fail(StatusRequired)
    else if isPost && !p.details.Lines? then Fail(DetailsRequired)
    else if p.details.Lines? && |p.details.lines| < 1 then Fail(TooFewItems)
    else if p.details.Lines? && |p.details.lines| > MaxItems then Fail(TooManyItems)
    else Pass
  }
}
