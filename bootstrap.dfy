/**
 * Bootstrap tokens for the auto-registration of nodes
 * (services/config-server/internal/domain/bootstrap.go).  The clock is the parameter `now`
 * (seconds, like `expiresAt`); the random token text is a parameter of the constructor.
 */
module Bootstrap {
  import opened Wrappers

  datatype TokenError = ErrCannotUse

  /** The text of the error `IncrementUses` returns. */
  function Message(e: TokenError): string {
    "token cannot be used: expired or max uses reached"
  }

  class BootstrapToken {
    var id: string
    var token: string
    var name: string
    var maxUses: int
    var uses: int
    var expiresAt: int
    var labels: map<string, string>
    var updatedAt: int

    /** `NewBootstrapToken`: no uses yet and no labels. */
    constructor (name: string, maxUses: int, expiresAt: int, token: string)
      ensures this.name == name && this.maxUses == maxUses && this.expiresAt == expiresAt
      ensures this.token == token && uses == 0 && labels == map[] && id == ""
    {
      this.id := "";
      this.token := token;
      this.name := name;
      this.maxUses := maxUses;
      this.uses := 0;
      this.expiresAt := expiresAt;
      this.labels := map[];
      this.updatedAt := 0;
    }

    /** `IsExpired`: the clock is past the expiry time. */
    predicate IsExpired(now: int)
      reads this
    {
      now > expiresAt
    }

    /** `CanUse`: not expired and uses left. */
    predicate CanUse(now: int)
      reads this
    {
      !IsExpired(now) && uses < maxUses
    }

    /** `IsValid` is `CanUse`. */
    predicate IsValid(now: int)
      reads this
    {
      CanUse(now)
    }

    /** `RemainingUses`: the uses left, never negative. */
    function RemainingUses(): (n: int)
      reads this
      ensures n >= 0
      ensures n == 0 <==> uses >= maxUses
      ensures n > 0 ==> uses + n == maxUses
    {
      var remaining := maxUses - uses;
      if remaining < 0 then 0 else remaining
    }

    /** `IncrementUses`: one more use when the token can be used; otherwise an error and no change. */
    method IncrementUses(now: int) returns (err: Option<TokenError>)
      modifies this
      ensures old(CanUse(now)) ==> err.None? && uses == old(uses) + 1 && updatedAt == now
      ensures !old(CanUse(now)) ==> err == Some(ErrCannotUse) && uses == old(uses) && updatedAt == old(updatedAt)
      ensures id == old(id) && token == old(token) && name == old(name) && maxUses == old(maxUses)
      ensures expiresAt == old(expiresAt) && labels == old(labels)
    {
      if !CanUse(now) {
        return Some(ErrCannotUse);
      }
      uses := uses + 1;
      updatedAt := now;
      return None;
    }
  }

  /** A usable token is valid exactly while it has uses left and is not expired, both ways. */
  lemma CanUseIff(t: BootstrapToken, now: int)
    ensures t.IsValid(now) <==> t.CanUse(now)
    ensures t.CanUse(now) <==> now <= t.expiresAt && t.RemainingUses() > 0
  {
  }

  /**
   * The usage scenario of the tests: a fresh token allowing `maxUses` uses, used that many
   * times before it expires, accepts every use and is then exhausted; a further use is refused.
   */
  method UseUntilExhausted(maxUses: nat, expiresAt: int, token: string, now: int)
    returns (t: BootstrapToken, accepted: nat, last: Option<TokenError>)
    requires now <= expiresAt
    ensures accepted == maxUses && t.uses == maxUses
    ensures !t.CanUse(now) && !t.IsValid(now) && t.RemainingUses() == 0
    ensures last == Some(ErrCannotUse)
  {
    t := new BootstrapToken("scenario", maxUses, expiresAt, token);
    accepted := 0;
    while accepted < maxUses
      invariant accepted <= maxUses && t.uses == accepted
      invariant t.maxUses == maxUses && t.expiresAt == expiresAt
    {
      var err := t.IncrementUses(now);
      assert err.None?;
      accepted := accepted + 1;
    }
    last := t.IncrementUses(now);
  }
}
