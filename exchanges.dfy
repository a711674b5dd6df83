/** `Config::exchanges`: the exchanges named in the `exchanges` section, with ShapeShift
    always present since it needs no credentials. */
module Exchanges {
  import opened Wrappers
  import opened Text
  import opened Json
  import opened Dispatch

  /** A constructed exchange, recorded with the argument it was built from: ShapeShift with
      an affiliate private key, or with none (its default constructor). */
  datatype Exchange = Shapeshift(affiliatePrivateKey: Option<Bytes>)

  const AFFILIATE_PRIVATE_KEY: Bytes := Ascii("affiliatePrivateKey")

  /** The body of the shapeshift case: when the entry has an `affiliatePrivateKey` member
      (`find` finds nothing in a value that is not an object) its value must be a string and
      builds an exchange; otherwise the case builds nothing. */
  function ShapeshiftFrom(value: Value): (r: Result<Option<Exchange>, Error>)
    ensures Find(value, AFFILIATE_PRIVATE_KEY).None? ==> r == Success(None)
    ensures Find(value, AFFILIATE_PRIVATE_KEY).Some? ==>
              (r.Success? <==> Find(value, AFFILIATE_PRIVATE_KEY).value.Str?)
    ensures r.Success? && r.value.Some? ==>
              r.value.value == Shapeshift(Some(Find(value, AFFILIATE_PRIVATE_KEY).value.s))
  {
    match Find(value, AFFILIATE_PRIVATE_KEY)
    case None => Success(None)
    case Some(x) =>
      var key :- AsString(x, AFFILIATE_PRIVATE_KEY);
      Success(Some(Shapeshift(Some(key))))
  }

  /** A member the loop gets past: its key enters the shapeshift case and its body does not
      throw. */
  predicate Accepted(m: (Bytes, Value)) {
    Selects(m.0, SHAPESHIFT_CASE) && ShapeshiftFrom(m.1).Success?
  }

  /** An accepted member whose case builds an exchange. */
  predicate Credentialed(m: (Bytes, Value)) {
    Accepted(m) && ShapeshiftFrom(m.1).value.Some?
  }

  /** What the loop throws at a member it does not accept. */
  function Rejection(m: (Bytes, Value)): Error
    requires !Accepted(m)
  {
    if Selects(m.0, SHAPESHIFT_CASE) then ShapeshiftFrom(m.1).error else InvalidKey(m.0)
  }

  /** The loop over the members of `exchanges`, in iteration order; `ret.insert` keeps the
      first exchange built under "shapeshift". */
  function ExchangesFrom(ms: seq<(Bytes, Value)>): (r: Result<map<Bytes, Exchange>, Error>)
    ensures r.Success? <==> forall i :: 0 <= i < |ms| ==> Accepted(ms[i])
    ensures r.Success? ==> r.value.Keys <= {SHAPESHIFT}
    ensures r.Success? ==> (SHAPESHIFT in r.value <==> exists i :: 0 <= i < |ms| && Credentialed(ms[i]))
  {
    if |ms| == 0 then Success(map[])
    else
      var prefix := ms[..|ms| - 1];
      assert forall i :: 0 <= i < |prefix| ==> prefix[i] == ms[i];
      var acc :- ExchangesFrom(prefix);
      var (key, value) := ms[|ms| - 1];
      if Selects(key, SHAPESHIFT_CASE) then
        var built :- ShapeshiftFrom(value);
        Success(if built.None? || SHAPESHIFT in acc then acc else acc[SHAPESHIFT := built.value])
      else
        Failure(InvalidKey(key))
  }

  /** The first member not accepted decides the exception. */
  lemma {:induction false} FirstRejectionDecides(ms: seq<(Bytes, Value)>, i: nat)
    requires i < |ms| && !Accepted(ms[i]) && forall j :: 0 <= j < i ==> Accepted(ms[j])
    ensures ExchangesFrom(ms) == Failure(Rejection(ms[i]))
  {
    var prefix := ms[..|ms| - 1];
    assert forall j :: 0 <= j < |prefix| ==> prefix[j] == ms[j];
    if i < |ms| - 1 {
      FirstRejectionDecides(prefix, i);
    }
  }

  /** The exchange kept is the one the first member with a credential builds. */
  lemma {:induction false} FirstCredentialKept(ms: seq<(Bytes, Value)>, i: nat)
    requires ExchangesFrom(ms).Success?
    requires i < |ms| && Credentialed(ms[i]) && forall j :: 0 <= j < i ==> !Credentialed(ms[j])
    ensures ExchangesFrom(ms).value[SHAPESHIFT] == ShapeshiftFrom(ms[i].1).value.value
  {
    var prefix := ms[..|ms| - 1];
    assert forall j :: 0 <= j < |prefix| ==> prefix[j] == ms[j];
    if i < |ms| - 1 {
      FirstCredentialKept(prefix, i);
    } else {
      assert !exists j :: 0 <= j < |prefix| && Credentialed(prefix[j]);
    }
  }

  /** `exchanges()` given the value of the `exchanges` section: the loop's map, completed
      with a ShapeShift without credentials when no member built one. */
  function ExchangesOf(section: Value): (r: Result<map<Bytes, Exchange>, Error>)
    ensures r.Success? ==> r.value.Keys == {SHAPESHIFT}
    ensures section == Null || section == Object([]) ==> r == Success(map[SHAPESHIFT := Shapeshift(None)])
    ensures Members(section).Failure? ==> r == Failure(KeyOfNonObject)
    ensures Members(section).Success? ==>
              (r.Success? <==> ExchangesFrom(Members(section).value).Success?)
    ensures Members(section).Success? && ExchangesFrom(Members(section).value).Failure? ==>
              r == Failure(ExchangesFrom(Members(section).value).error)
  {
    var ms :- Members(section);
    var acc :- ExchangesFrom(ms);
    Success(if SHAPESHIFT in acc then acc else acc[SHAPESHIFT := Shapeshift(None)])
  }

  /** Without any credential, the default ShapeShift is the one returned. */
  lemma NoCredentialDefault(section: Value)
    requires ExchangesOf(section).Success?
    requires forall m :: m in Members(section).value ==> !Credentialed(m)
    ensures ExchangesOf(section).value[SHAPESHIFT] == Shapeshift(None)
  {
    var ms := Members(section).value;
    if exists i :: 0 <= i < |ms| && Credentialed(ms[i]) {
      var i :| 0 <= i < |ms| && Credentialed(ms[i]);
      assert ms[i] in ms;
    }
  }

  /** A credential given in the section survives the default insertion: the ShapeShift
      returned is the one the first member with a credential builds. */
  lemma CredentialSurvivesDefault(section: Value, i: nat)
    requires ExchangesOf(section).Success?
    requires i < |Members(section).value| && Credentialed(Members(section).value[i])
    requires forall j :: 0 <= j < i ==> !Credentialed(Members(section).value[j])
    ensures ExchangesOf(section).value[SHAPESHIFT] == ShapeshiftFrom(Members(section).value[i].1).value.value
  {
    FirstCredentialKept(Members(section).value, i);
  }

  /** One accepted member more: the map grows as `ret.insert` does. */
  lemma AcceptedStep(ms: seq<(Bytes, Value)>, i: nat, acc: map<Bytes, Exchange>)
    requires i < |ms| && ExchangesFrom(ms[..i]) == Success(acc) && Accepted(ms[i])
    ensures ExchangesFrom(ms[..i + 1]) ==
              Success(if ShapeshiftFrom(ms[i].1).value.None? || SHAPESHIFT in acc then acc
                      else acc[SHAPESHIFT := ShapeshiftFrom(ms[i].1).value.value])
  {
    assert ms[..i + 1][..i] == ms[..i];
  }

  /** The loop stops at the first member it does not accept, with that member's exception. */
  lemma RejectedAt(ms: seq<(Bytes, Value)>, i: nat, acc: map<Bytes, Exchange>)
    requires i < |ms| && ExchangesFrom(ms[..i]) == Success(acc) && !Accepted(ms[i])
    ensures ExchangesFrom(ms) == Failure(Rejection(ms[i]))
  {
    forall j | 0 <= j < i
      ensures Accepted(ms[j])
    {
      assert ms[..i][j] == ms[j];
    }
    FirstRejectionDecides(ms, i);
  }

  /** The loop of `Config::exchanges` over the `exchanges` section. */
  method BuildExchanges(section: Value) returns (r: Result<map<Bytes, Exchange>, Error>)
    ensures r == ExchangesOf(section)
  {
    var ms :- Members(section);
    var ret: map<Bytes, Exchange> := map[];
    for i := 0 to |ms|
      invariant ExchangesFrom(ms[..i]) == Success(ret)
    {
      var (key, value) := ms[i];
      var h := Hash(Some(key));
      if h == SHAPESHIFT_CASE {
        var found := Find(value, AFFILIATE_PRIVATE_KEY);
        if found.Some? {
          if !found.value.Str? {
            RejectedAt(ms, i, ret);
            return Failure(BadField(AFFILIATE_PRIVATE_KEY));
          }
          AcceptedStep(ms, i, ret);
          if SHAPESHIFT !in ret {
            ret := ret[SHAPESHIFT := Shapeshift(Some(found.value.s))];
          }
        } else {
          AcceptedStep(ms, i, ret);
        }
      } else {
        RejectedAt(ms, i, ret);
        return Failure(InvalidKey(key));
      }
    }
    assert ms[..|ms|] == ms;
    if SHAPESHIFT !in ret {
      ret := ret[SHAPESHIFT := Shapeshift(None)];
    }
    return Success(ret);
  }
}
