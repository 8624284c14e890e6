/** The slice of the Redis client the rate limiter uses: sorted sets of
    request timestamps and string keys holding override limits. A sorted-set
    member is the decimal text of its own score, so a set of scores stands
    for the sorted set. Which commands fail is part of the store's state:
    a failing command raises and leaves the data untouched. */
module Redis {
  import opened RateLimitTypes

  datatype Command = GET | SET | ZADD | ZREMRANGEBYSCORE | ZCARD | EXPIRE | ZRANGE

  /** The data held by the store, as a value. */
  datatype StoreState = StoreState(sortedSets: map<string, set<int>>, strings: map<string, int>)

  /** Scores of the sorted set at `key`; a missing key reads as empty. */
  function Members(sets: map<string, set<int>>, key: string): set<int>
  {
    if key in sets then sets[key] else {}
  }

  /** ZADD key score: adding a score already present changes nothing. */
  function Added(sets: map<string, set<int>>, key: string, score: int): (r: map<string, set<int>>)
    ensures Members(r, key) == Members(sets, key) + {score}
    ensures forall k :: k != key ==> Members(r, k) == Members(sets, k)
  {
    sets[key := Members(sets, key) + {score}]
  }

  /** ZREMRANGEBYSCORE key min max: both bounds inclusive. */
  function Removed(sets: map<string, set<int>>, key: string, min: int, max: int): (r: map<string, set<int>>)
    ensures forall t :: t in Members(r, key) <==> t in Members(sets, key) && !(min <= t <= max)
    ensures Members(r, key) <= Members(sets, key)
    ensures forall k :: k != key ==> Members(r, k) == Members(sets, k)
  {
    if key in sets then sets[key := set t | t in sets[key] && !(min <= t <= max)] else sets
  }

  /** `m` is the lowest score of `s`, the member ZRANGE key 0 0 returns. */
  predicate IsLowest(m: int, s: set<int>)
  {
    m in s && forall t :: t in s ==> m <= t
  }

  lemma {:induction false} LowestExists(s: set<int>)
    requires s != {}
    ensures exists m :: IsLowest(m, s)
  {
    if forall t :: t !in s {
      assert false;
    }
    var x :| x in s;
    var rest := s - {x};
    if rest == {} {
      assert s == {x};
      assert IsLowest(x, s);
    } else {
      LowestExists(rest);
      var m :| IsLowest(m, rest);
      assert forall t :: t in s ==> t == x || t in rest;
      if x < m {
        assert IsLowest(x, s);
      } else {
        assert IsLowest(m, s);
      }
    }
  }

  ghost function Lowest(s: set<int>): (m: int)
    requires s != {}
    ensures IsLowest(m, s)
    ensures forall n :: IsLowest(n, s) ==> n == m
  {
    LowestExists(s);
    var m :| IsLowest(m, s);
    m
  }

  /** The connected client. */
  class Client {
    var sortedSets: map<string, set<int>>
    var strings: map<string, int>
    var failing: set<Command>

    constructor (sortedSets: map<string, set<int>>, strings: map<string, int>, failing: set<Command>)
      ensures this.sortedSets == sortedSets && this.strings == strings && this.failing == failing
    {
      this.sortedSets := sortedSets;
      this.strings := strings;
      this.failing := failing;
    }

    function State(): StoreState
      reads this
    {
      StoreState(sortedSets, strings)
    }

    /** GET key: the stored value, None when the key is absent. */
    method Get(key: string) returns (r: Result<Option<int>>)
      ensures r.Failure? <==> GET in failing
      ensures r.Ok? ==> (r.value.Some? <==> key in strings)
      ensures r.Ok? && key in strings ==> r.value.value == strings[key]
    {
      if GET in failing {
        return Failure;
      }
      r := Ok(if key in strings then Some(strings[key]) else None);
    }

    /** SET key value PX ttlMs (the time to live is not modelled). */
    method Set(key: string, value: int, ttlMs: int) returns (ok: bool)
      modifies this
      ensures ok <==> SET !in old(failing)
      ensures strings == if ok then old(strings)[key := value] else old(strings)
      ensures sortedSets == old(sortedSets) && failing == old(failing)
    {
      ok := SET !in failing;
      if ok {
        strings := strings[key := value];
      }
    }

    /** ZADD key {score, value: the score's decimal text}. */
    method ZAdd(key: string, score: int) returns (ok: bool)
      modifies this
      ensures ok <==> ZADD !in old(failing)
      ensures sortedSets == if ok then Added(old(sortedSets), key, score) else old(sortedSets)
      ensures strings == old(strings) && failing == old(failing)
    {
      ok := ZADD !in failing;
      if ok {
        sortedSets := Added(sortedSets, key, score);
      }
    }

    method ZRemRangeByScore(key: string, min: int, max: int) returns (ok: bool)
      modifies this
      ensures ok <==> ZREMRANGEBYSCORE !in old(failing)
      ensures sortedSets == if ok then Removed(old(sortedSets), key, min, max) else old(sortedSets)
      ensures strings == old(strings) && failing == old(failing)
    {
      ok := ZREMRANGEBYSCORE !in failing;
      if ok {
        sortedSets := Removed(sortedSets, key, min, max);
      }
    }

    method ZCard(key: string) returns (r: Result<nat>)
      ensures r.Failure? <==> ZCARD in failing
      ensures r.Ok? ==> r.value == |Members(sortedSets, key)|
    {
      if ZCARD in failing {
        return Failure;
      }
      r := Ok(|Members(sortedSets, key)|);
    }

    /** EXPIRE key (ttlMs / 1000) seconds: only its failure is modelled, not the expiry. */
    method Expire(key: string, ttlMs: int) returns (ok: bool)
      ensures ok <==> EXPIRE !in failing
    {
      ok := EXPIRE !in failing;
    }

    /** ZRANGE key 0 0: the member with the lowest score, if any. */
    method ZRangeFirst(key: string) returns (r: Result<seq<int>>)
      ensures r.Failure? <==> ZRANGE in failing
      ensures r.Ok? ==> (r.value == [] <==> Members(sortedSets, key) == {})
      ensures r.Ok? && r.value != [] ==> |r.value| == 1 && IsLowest(r.value[0], Members(sortedSets, key))
    {
      if ZRANGE in failing {
        return Failure;
      }
      var s := Members(sortedSets, key);
      if s == {} {
        r := Ok([]);
      } else {
        LowestExists(s);
        var m :| IsLowest(m, s);
        r := Ok([m]);
      }
    }
  }
}
