/** The session gate in front of the authenticated routes. The token cookie
    is checked by a signature-and-expiry verification whose outcome is a
    parameter: it either throws or yields the decoded claims. */
module UserAuth {
  import opened Wrappers

  const NotAuthorized := "Not Authorized. Login Again"
  const InvalidToken := "Invalid or Expired Token. Login Again"

  /** The decoded payload of a session token; only its `id` claim is read. */
  datatype Claims = Claims(id: Option<string>)

  /** The outcome of `jwt.verify(token, secret)`: it throws on a bad
      signature or an expired token, and otherwise returns the claims. */
  datatype Verification = Throws | Decoded(claims: Claims)

  /** Either a 401 reply with its message, or a call to `next()` with
      `req.user.id` set to `userId`. */
  datatype Gate = Reject401(message: string) | Pass(userId: string)

  /** `userAuth`: a request passes exactly when it carries a token cookie that
      verifies and whose claims hold an `id`; that id is what the next handler
      sees. */
  function Authenticate(token: Option<string>, verify: string -> Verification): (g: Gate)
    ensures g.Pass? <==>
              Truthy(token) && verify(token.value).Decoded? && Truthy(verify(token.value).claims.id)
    ensures g.Pass? ==> g.userId == verify(token.value).claims.id.value
    ensures !Truthy(token) ==> g == Reject401(NotAuthorized)
    ensures Truthy(token) && verify(token.value).Throws? ==> g == Reject401(InvalidToken)
    ensures (Truthy(token) && verify(token.value).Decoded? && !Truthy(verify(token.value).claims.id)) ==>
              g == Reject401(NotAuthorized)
  {
    if !Truthy(token) then Reject401(NotAuthorized)
    else match verify(token.value)
      case Throws => Reject401(InvalidToken)
      case Decoded(claims) =>
        if !Truthy(claims.id) then Reject401(NotAuthorized) else Pass(claims.id.value)
  }
}
