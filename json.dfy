/** The in-memory JSON tree (an nlohmann `json` value) and the accessors of it that the
    configuration code uses, each with the outcome the library gives it: a value, or the
    exception it throws (type_error, out_of_range, invalid_iterator). */
module Json {
  import opened Wrappers
  import opened Text

  /** A JSON value. An object lists its members in iteration order; nlohmann objects are
      `std::map`s, so a parsed document has distinct keys in ascending order (SortedKeys). */
  datatype Value =
    | Null
    | Boolean(b: bool)
    | Int(i: int)            // number_integer and number_unsigned
    | Float(r: real)         // number_float
    | Str(s: Bytes)
    | Array(items: seq<Value>)
    | Object(members: seq<(Bytes, Value)>)

  /** What the configuration code throws. */
  datatype Error =
    | InvalidKey(key: Bytes)              // "<key> is not a valid key"
    | QuantityRequired(fragment: Value)   // "<fragment>: fixed_amount or balance_percentage required ..."
    | BadField(field: Bytes)              // the field is missing or has the wrong type
    | KeyOfNonObject                      // it.key() on an iterator that does not walk an object
    | BadPairEntry(entry: Value)          // a monitor pair that is not [string, string, ...]

  /** The text after the key in the message of an InvalidKey exception. */
  const NOT_A_VALID_KEY: Bytes := Ascii(" is not a valid key")

  /** `what()` of an InvalidKey exception: the key followed by " is not a valid key". */
  function InvalidKeyMessage(key: Bytes): (m: Bytes)
    ensures |m| == |key| + |NOT_A_VALID_KEY|
    ensures m[..|key|] == key && m[|key|..] == NOT_A_VALID_KEY
  {
    key + NOT_A_VALID_KEY
  }

  /** The message names the key it was raised for. */
  lemma InvalidKeyMessageNamesKey(a: Bytes, b: Bytes)
    requires InvalidKeyMessage(a) == InvalidKeyMessage(b)
    ensures a == b
  {
    assert a == InvalidKeyMessage(a)[..|a|];
  }

  predicate SortedKeys(ms: seq<(Bytes, Value)>) {
    forall i, j :: 0 <= i < j < |ms| ==> Less(ms[i].0, ms[j].0)
  }

  predicate DistinctKeys(ms: seq<(Bytes, Value)>) {
    forall i, j :: 0 <= i < j < |ms| ==> ms[i].0 != ms[j].0
  }

  /** The keys of the members, in order. */
  function KeysOf(ms: seq<(Bytes, Value)>): (r: seq<Bytes>)
    ensures |r| == |ms| && forall i :: 0 <= i < |ms| ==> r[i] == ms[i].0
  {
    seq(|ms|, i requires 0 <= i < |ms| => ms[i].0)
  }

  lemma SortedKeysAreDistinct(ms: seq<(Bytes, Value)>)
    requires SortedKeys(ms)
    ensures DistinctKeys(ms)
  {
    forall i, j | 0 <= i < j < |ms|
      ensures ms[i].0 != ms[j].0
    {
      LessIrreflexive(ms[i].0);
    }
  }

  /** The value of the first member named key (`find`, `at`, `operator[]` on a present key). */
  function FindIn(ms: seq<(Bytes, Value)>, key: Bytes): Option<Value> {
    if |ms| == 0 then None
    else if ms[0].0 == key then Some(ms[0].1)
    else FindIn(ms[1..], key)
  }

  /** A key is found exactly when some member has it, and then with the value of the first
      such member. */
  lemma {:induction false} FindInFirst(ms: seq<(Bytes, Value)>, key: Bytes)
    ensures FindIn(ms, key).Some? <==> exists i :: 0 <= i < |ms| && ms[i].0 == key
    ensures FindIn(ms, key).Some? ==>
              exists i :: 0 <= i < |ms| && ms[i] == (key, FindIn(ms, key).value) &&
                          forall j :: 0 <= j < i ==> ms[j].0 != key
  {
    if |ms| > 0 && ms[0].0 != key {
      FindInFirst(ms[1..], key);
      assert forall i :: 0 < i < |ms| ==> ms[i] == ms[1..][i - 1];
      if FindIn(ms, key).Some? {
        var i :| 0 <= i < |ms[1..]| && ms[1..][i] == (key, FindIn(ms, key).value) &&
                 forall j :: 0 <= j < i ==> ms[1..][j].0 != key;
        assert ms[i + 1] == ms[1..][i];
        assert forall j :: 0 < j < i + 1 ==> ms[j] == ms[1..][j - 1];
      }
    }
  }

  /** `find(key)`: nothing is found in a value that is not an object. */
  function Find(v: Value, key: Bytes): Option<Value> {
    if v.Object? then FindIn(v.members, key) else None
  }

  /** The keys and values a `for (it = v.begin(); ...)` loop that reads `it.key()` visits:
      null and an empty array have none; an object has its members; on any other value the
      loop runs and the first `it.key()` throws invalid_iterator. */
  function Members(v: Value): (r: Result<seq<(Bytes, Value)>, Error>)
    ensures r.Success? <==> v.Object? || v == Null || v == Array([])
    ensures r.Success? ==> r.value == (if v.Object? then v.members else [])
    ensures r.Failure? ==> r.error == KeyOfNonObject
  {
    match v
    case Object(ms) => Success(ms)
    case Null => Success([])
    case Array(items) => if |items| == 0 then Success([]) else Failure(KeyOfNonObject)
    case _ => Failure(KeyOfNonObject)
  }

  /** The values a range-based `for` loop over v visits: an array's items, an object's
      values, nothing for null, and the value itself for a string, number or boolean. */
  function Elements(v: Value): (r: seq<Value>)
    ensures v.Array? ==> r == v.items
    ensures v.Object? ==> |r| == |v.members| && forall i :: 0 <= i < |r| ==> r[i] == v.members[i].1
    ensures v.Null? ==> r == []
    ensures !(v.Array? || v.Object? || v.Null?) ==> r == [v]
  {
    match v
    case Array(items) => items
    case Object(ms) => seq(|ms|, i requires 0 <= i < |ms| => ms[i].1)
    case Null => []
    case _ => [v]
  }

  /** A required member read with `operator[]`: a missing key (undefined behaviour on a const
      object, a null that fails its conversion on a mutable one) or a value that is not an
      object fails. */
  function Field(v: Value, key: Bytes): (r: Result<Value, Error>)
    ensures r.Success? <==> Find(v, key).Some?
    ensures r.Success? ==> Find(v, key) == Some(r.value)
    ensures r.Failure? ==> r.error == BadField(key)
  {
    match Find(v, key)
    case Some(x) => Success(x)
    case None => Failure(BadField(key))
  }

  /** Conversion to `std::string`: only a string converts. */
  function AsString(v: Value, field: Bytes): (r: Result<Bytes, Error>)
    ensures r.Success? <==> v.Str?
    ensures r.Success? ==> r.value == v.s
    ensures r.Failure? ==> r.error == BadField(field)
  {
    if v.Str? then Success(v.s) else Failure(BadField(field))
  }

  /** Conversion to `float`: a number converts, and so does a boolean (as 1 or 0); 32-bit
      rounding is not modelled. */
  function AsNumber(v: Value, field: Bytes): (r: Result<real, Error>)
    ensures r.Success? <==> v.Int? || v.Float? || v.Boolean?
    ensures v.Int? ==> r == Success(v.i as real)
    ensures v.Float? ==> r == Success(v.r)
    ensures v.Boolean? ==> r == Success(if v.b then 1.0 else 0.0)
    ensures r.Failure? ==> r.error == BadField(field)
  {
    match v
    case Int(i) => Success(i as real)
    case Float(x) => Success(x)
    case Boolean(b) => Success(if b then 1.0 else 0.0)
    case _ => Failure(BadField(field))
  }

  /** C++ conversion of a floating-point value to an integer: truncation toward zero. */
  function Truncate(x: real): (r: int)
    ensures 0.0 <= x ==> r as real <= x < r as real + 1.0
    ensures x < 0.0 ==> r as real - 1.0 < x <= r as real
  {
    if 0.0 <= x then x.Floor else -((-x).Floor)
  }

  /** Conversion to the `int64_t` count of a `std::chrono::seconds`, which is the document's
      own integer type: an integer converts as it is, a floating-point number is truncated,
      and anything else, a boolean included, is a type error. */
  function AsSeconds(v: Value, field: Bytes): (r: Result<int, Error>)
    ensures r.Success? <==> v.Int? || v.Float?
    ensures v.Int? ==> r == Success(v.i)
    ensures v.Float? ==> r == Success(Truncate(v.r))
    ensures r.Failure? ==> r.error == BadField(field)
  {
    match v
    case Int(i) => Success(i)
    case Float(x) => Success(Truncate(x))
    case _ => Failure(BadField(field))
  }

  function StringField(v: Value, key: Bytes): Result<Bytes, Error> {
    var x :- Field(v, key);
    AsString(x, key)
  }

  function NumberField(v: Value, key: Bytes): Result<real, Error> {
    var x :- Field(v, key);
    AsNumber(x, key)
  }

  function SecondsField(v: Value, key: Bytes): Result<int, Error> {
    var x :- Field(v, key);
    AsSeconds(x, key)
  }

  /** Adds a member in front of the first member with a greater key (`std::map` insertion
      of a new key). */
  function Insert(ms: seq<(Bytes, Value)>, key: Bytes, x: Value): (r: seq<(Bytes, Value)>)
    ensures forall m :: m in r <==> m == (key, x) || m in ms
  {
    if |ms| == 0 || Less(key, ms[0].0) then [(key, x)] + ms
    else
      assert forall m :: m in ms <==> m == ms[0] || m in ms[1..] by {
        assert ms == [ms[0]] + ms[1..];
      }
      [ms[0]] + Insert(ms[1..], key, x)
  }

  /** After inserting a new key, the key is found with its value and every other key is
      found as before. */
  lemma {:induction false} InsertFinds(ms: seq<(Bytes, Value)>, key: Bytes, x: Value)
    requires FindIn(ms, key).None?
    ensures FindIn(Insert(ms, key, x), key) == Some(x)
    ensures forall k :: k != key ==> FindIn(Insert(ms, key, x), k) == FindIn(ms, k)
  {
    var r := Insert(ms, key, x);
    if |ms| == 0 || Less(key, ms[0].0) {
      assert r[1..] == ms;
    } else {
      assert FindIn(ms[1..], key).None? by {
        assert forall i :: 0 <= i < |ms[1..]| ==> ms[1..][i] == ms[i + 1];
      }
      InsertFinds(ms[1..], key, x);
      assert r[1..] == Insert(ms[1..], key, x);
    }
  }

  /** Inserting a new key keeps the members in ascending key order. */
  lemma {:induction false} InsertKeepsOrder(ms: seq<(Bytes, Value)>, key: Bytes, x: Value)
    requires SortedKeys(ms) && FindIn(ms, key).None?
    ensures SortedKeys(Insert(ms, key, x))
  {
    var r := Insert(ms, key, x);
    if |ms| == 0 || Less(key, ms[0].0) {
      forall j | 1 < j < |r|
        ensures Less(r[0].0, r[j].0)
      {
        LessTransitive(key, ms[0].0, r[j].0);
      }
    } else {
      var tail := Insert(ms[1..], key, x);
      assert FindIn(ms[1..], key).None? by {
        assert forall i :: 0 <= i < |ms[1..]| ==> ms[1..][i] == ms[i + 1];
      }
      InsertKeepsOrder(ms[1..], key, x);
      assert r[1..] == tail;
      LessTrichotomy(key, ms[0].0);
      forall j | 0 < j < |r|
        ensures Less(r[0].0, r[j].0)
      {
        assert r[j] in tail;
        if r[j] != (key, x) {
          var k :| 0 <= k < |ms[1..]| && ms[1..][k] == r[j];
          assert ms[k + 1] == r[j];
        }
      }
    }
  }

  /** Replaces the value of the first member named key. */
  function Replace(ms: seq<(Bytes, Value)>, key: Bytes, x: Value): (r: seq<(Bytes, Value)>)
    requires FindIn(ms, key).Some?
    ensures |r| == |ms| && forall i :: 0 <= i < |r| ==> r[i].0 == ms[i].0
  {
    if ms[0].0 == key then [(key, x)] + ms[1..]
    else [ms[0]] + Replace(ms[1..], key, x)
  }

  /** After the replacement, key finds x and every other key finds what it found before. */
  lemma {:induction false} ReplaceFinds(ms: seq<(Bytes, Value)>, key: Bytes, x: Value)
    requires FindIn(ms, key).Some?
    ensures FindIn(Replace(ms, key, x), key) == Some(x)
    ensures forall k :: k != key ==> FindIn(Replace(ms, key, x), k) == FindIn(ms, k)
  {
    var r := Replace(ms, key, x);
    if ms[0].0 == key {
      assert r[1..] == ms[1..];
    } else {
      ReplaceFinds(ms[1..], key, x);
      assert r[1..] == Replace(ms[1..], key, x);
    }
  }

  /** `v[key]` through a non-const reference: an object that has the key yields its value
      unchanged; an object without it, or a null (which first becomes an empty object),
      gains the member `key: null` and yields null; any other value throws type_error.
      The result pairs the updated value with the member's value. */
  function Subscript(v: Value, key: Bytes): (r: Result<(Value, Value), Error>)
    ensures r.Success? <==> v.Null? || v.Object?
    ensures r.Failure? ==> r.error == BadField(key)
    ensures r.Success? ==> r.value.0.Object? && Find(r.value.0, key) == Some(r.value.1)
    ensures r.Success? && Find(v, key).Some? ==> r.value == (v, Find(v, key).value)
    ensures r.Success? && Find(v, key).None? ==>
              r.value.1 == Null && forall k :: k != key ==> Find(r.value.0, k) == Find(v, k)
    ensures r.Success? && v.Object? && SortedKeys(v.members) ==> SortedKeys(r.value.0.members)
  {
    match v
    case Null =>
      assert forall k :: k != key ==> FindIn([(key, Null)], k) == FindIn([(key, Null)][1..], k);
      assert [(key, Null)][1..] == [];
      Success((Object([(key, Null)]), Null))
    case Object(ms) =>
      (match FindIn(ms, key)
       case Some(x) => Success((v, x))
       case None =>
         InsertFinds(ms, key, Null);
         if SortedKeys(ms) then InsertKeepsOrder(ms, key, Null); Success((Object(Insert(ms, key, Null)), Null))
         else Success((Object(Insert(ms, key, Null)), Null)))
    case _ => Failure(BadField(key))
  }

  /** Stores x as the value of member key of an object that has it (a write through the
      reference `v[key]` returned). */
  function Store(v: Value, key: Bytes, x: Value): (r: Value)
    requires Find(v, key).Some?
    ensures r.Object? && Find(r, key) == Some(x)
    ensures forall k :: k != key ==> Find(r, k) == Find(v, k)
    ensures SortedKeys(v.members) ==> SortedKeys(r.members)
  {
    ReplaceFinds(v.members, key, x);
    Object(Replace(v.members, key, x))
  }

  /** A second `v[key]` finds the member the first one read or added, and changes nothing. */
  lemma SubscriptAgain(v: Value, key: Bytes)
    requires Subscript(v, key).Success?
    ensures Subscript(Subscript(v, key).value.0, key) == Success(Subscript(v, key).value)
  {
  }
}
