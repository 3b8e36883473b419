/** `ProfileGuard.canActivate`: a route is open only to the user whose id it names. */
module ProfileGuard {
  import opened Wrappers
  import opened Numbers

  /** `values.some((id) => parseInt(id) === userId)`. */
  function SomeParamIs(values: seq<string>, userId: int): (r: bool)
    ensures r <==> exists i :: 0 <= i < |values| && ParseInt(values[i]) == Some(userId)
  {
    if |values| == 0 then false
    else if ParseInt(values[0]) == Some(userId) then true
    else
      var r := SomeParamIs(values[1..], userId);
      assert r <== exists i :: 0 <= i < |values| && ParseInt(values[i]) == Some(userId) by {
        if exists i :: 0 <= i < |values| && ParseInt(values[i]) == Some(userId) {
          var i :| 0 <= i < |values| && ParseInt(values[i]) == Some(userId);
          assert values[1..][i - 1] == values[i];
        }
      }
      r
  }

  /**
   * `canActivate` for a request whose authenticated user id is `userId`
   * (`None` when there is no user) and whose route parameters have the values
   * `params`: a missing or falsy id (0) is refused before any parameter is read.
   */
  function CanActivate(userId: Option<int>, params: seq<string>): (allowed: bool)
    ensures userId.None? || userId == Some(0) ==> !allowed
    ensures |params| == 0 ==> !allowed
    ensures allowed <==>
      && userId.Some? && userId.value != 0
      && exists i :: 0 <= i < |params| && ParseInt(params[i]) == Some(userId.value)
  {
    match userId
    case None => false
    case Some(id) => id != 0 && SomeParamIs(params, id)
  }

  /** The user whose id is rendered into the route passes the guard. */
  lemma OwnProfileAdmitted(id: int, params: seq<string>, i: nat)
    requires id != 0
    requires i < |params| && params[i] == IntToString(id)
    ensures CanActivate(Some(id), params)
  {
    ParseIntOfIntToString(id);
  }

  /** A route naming another user's id never lets this user through. */
  lemma OtherProfileRefused(id: int, other: int)
    requires id != other
    ensures !CanActivate(Some(id), [IntToString(other)])
  {
    ParseIntOfIntToString(other);
  }

  /** A parameter that reads as NaN cannot change the verdict. */
  lemma NaNParamIgnored(userId: Option<int>, params: seq<string>, p: string)
    requires ParseInt(p).None?
    ensures CanActivate(userId, params + [p]) == CanActivate(userId, params)
  {
    if userId.Some? && userId.value != 0 {
      var id, xs := userId.value, params + [p];
      if SomeParamIs(xs, id) {
        var i :| 0 <= i < |xs| && ParseInt(xs[i]) == Some(id);
        assert i != |params|;
        assert xs[i] == params[i];
      }
      if SomeParamIs(params, id) {
        var i :| 0 <= i < |params| && ParseInt(params[i]) == Some(id);
        assert xs[i] == params[i];
      }
    }
  }

  /** Trailing junk still matches: the user's id followed by any non-digit text passes. */
  lemma TrailingJunkAdmitted(id: nat, junk: string)
    requires id != 0
    requires |junk| > 0 ==> DigitValue(junk[0]) >= 10
    ensures CanActivate(Some(id), [NatToString(id) + junk])
  {
    var d := NatToString(id);
    TrailingJunkIgnored(d, junk);
    DigitsValueOfNatToString(id);
  }

  /** Without a radix, "0x" followed by hex digits names the user with that hex value. */
  lemma HexParamAdmitted(x: char, h: string, junk: string)
    requires x == 'x' || x == 'X'
    requires |h| >= 1 && forall i :: 0 <= i < |h| ==> DigitValue(h[i]) < 16
    requires |junk| > 0 ==> DigitValue(junk[0]) >= 16
    requires DigitsValue(h, 16) != 0
    ensures CanActivate(Some(DigitsValue(h, 16)), [['0', x] + h + junk])
  {
    HexPrefixRead(x, h, junk);
  }
}
