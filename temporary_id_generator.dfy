/**
  Finance/LocalStorage/TemporaryIdGenerator.swift: negative ids for records
  created offline, drawn from a counter persisted in `UserDefaults` under
  "lastTemporaryID". All state lives in the store, so generators sharing a
  store share the sequence.
*/
module TemporaryIdGenerator {

  /** The persisted defaults, as a key to integer map; `integer(forKey:)` reads 0 for a missing key. */
  class UserDefaults {
    var values: map<string, int>

    constructor ()
      ensures values == map[]
    {
      values := map[];
    }

    function Integer(key: string): int
      reads this
    {
      if key in values then values[key] else 0
    }

    method Set(value: int, key: string)
      modifies this
      ensures values == old(values)[key := value]
    {
      values := values[key := value];
    }

    method RemoveObject(key: string)
      modifies this
      ensures values == old(values) - {key}
    {
      values := values - {key};
    }
  }

  const Key: string := "lastTemporaryID"

  /** The id `generate` hands out when the counter reads `last`. */
  function NextId(last: int): (id: int)
    ensures id <= -1
    ensures last <= 0 ==> id == -1
    ensures last > 0 ==> id == -(last + 1) && id < -last
  {
    if last > 0 then -last - 1 else -1
  }

  function Abs(x: int): (r: nat)
    ensures r == x || r == -x
  {
    if x < 0 then -x else x
  }

  /** The counter written back reads as the next one to continue from. */
  lemma CounterAfterGenerate(last: int)
    ensures Abs(NextId(last)) == -NextId(last) >= 1
    ensures NextId(Abs(NextId(last))) == NextId(last) - 1
  {
  }

  /** The `k`-th id (from 0) after a counter of 0 or below. */
  function IdsFrom(last: int, k: nat): int {
    if k == 0 then NextId(last) else NextId(Abs(IdsFrom(last, k - 1)))
  }

  /** From an empty store the ids are -1, -2, -3, ... and they strictly decrease. */
  lemma {:induction false} IdsFromEmpty(k: nat)
    ensures IdsFrom(0, k) == -(k + 1)
    ensures k > 0 ==> IdsFrom(0, k) < IdsFrom(0, k - 1)
  {
    if k > 0 {
      IdsFromEmpty(k - 1);
    }
  }

  class TemporaryIDGenerator {
    const userDefaults: UserDefaults

    constructor (userDefaults: UserDefaults)
      ensures this.userDefaults == userDefaults
    {
      this.userDefaults := userDefaults;
    }

    method Generate() returns (newId: int)
      modifies userDefaults
      ensures newId == NextId(old(userDefaults.Integer(Key)))
      ensures userDefaults.values == old(userDefaults.values)[Key := Abs(newId)]
    {
      var lastId := userDefaults.Integer(Key);
      newId := if lastId > 0 then -lastId - 1 else -1;
      userDefaults.Set(Abs(newId), Key);
    }

    method Reset()
      modifies userDefaults
      ensures userDefaults.values == old(userDefaults.values) - {Key}
      ensures userDefaults.Integer(Key) == 0
    {
      userDefaults.RemoveObject(Key);
    }
  }

  /** Two generators over one store continue one sequence; after `reset` it starts again at -1. */
  method SharedStoreScenario() returns (a: int, b: int, c: int, d: int)
    ensures a == -1 && b == -2 && c == -3 && d == -1
  {
    var store := new UserDefaults();
    var first := new TemporaryIDGenerator(store);
    a := first.Generate();
    b := first.Generate();
    var second := new TemporaryIDGenerator(store);
    c := second.Generate();
    second.Reset();
    d := first.Generate();
  }
}
