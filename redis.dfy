/** The part of the Redis store the chat server uses: sets and lists under
    string keys, with the commands SADD, SREM, SCARD, SMEMBERS, LPUSH, LTRIM
    and LRANGE. A missing key reads as the empty set or the empty list. */
module Redis {

  function Max(a: int, b: int): int { if a < b then b else a }
  function Min(a: int, b: int): int { if a < b then a else b }

  /** The elements of `s` that LRANGE returns, and LTRIM keeps, for the
      inclusive index range `start`..`stop`, where a negative index counts
      from the end of the list. */
  function RangeOf<T>(s: seq<T>, start: int, stop: int): (r: seq<T>)
    ensures |r| <= |s|
    ensures forall k :: 0 <= k < |r| ==>
              var lo := if start < 0 then Max(|s| + start, 0) else start;
              0 <= lo + k < |s| && r[k] == s[lo + k]
  {
    var n := |s|;
    var lo := if start < 0 then Max(n + start, 0) else start;
    var hi := if stop < 0 then n + stop else stop;
    var last := if hi >= n then n - 1 else hi;
    if lo > last || lo >= n then [] else s[lo..last + 1]
  }

  /** LRANGE key 0 -1 reads the whole list. */
  lemma RangeWhole<T>(s: seq<T>)
    ensures RangeOf(s, 0, -1) == s
  {
  }

  /** LTRIM key 0 n-1 keeps the first `n` entries, or all of them when there
      are fewer. */
  lemma RangePrefix<T>(s: seq<T>, n: nat)
    requires n > 0
    ensures RangeOf(s, 0, n - 1) == s[..Min(|s|, n)]
  {
  }

  /** The set under `key`; a missing key reads as the empty set. */
  function SetIn(sets: map<string, set<string>>, key: string): set<string>
  {
    if key in sets then sets[key] else {}
  }

  /** The list under `key`; a missing key reads as the empty list. */
  function ListIn<V>(lists: map<string, seq<V>>, key: string): seq<V>
  {
    if key in lists then lists[key] else []
  }

  /** The shared store. `pushed` is a specification-only record of every value
      LPUSHed under each key, oldest first; the chat server never reads it. */
  class Store<V> {
    var sets: map<string, set<string>>
    var lists: map<string, seq<V>>
    ghost var pushed: map<string, seq<V>>

    function SetAt(key: string): set<string>
      reads this
    {
      SetIn(sets, key)
    }

    function ListAt(key: string): seq<V>
      reads this
    {
      ListIn(lists, key)
    }

    ghost function PushedAt(key: string): seq<V>
      reads this
    {
      ListIn(pushed, key)
    }

    constructor ()
      ensures sets == map[] && lists == map[] && pushed == map[]
    {
      sets, lists, pushed := map[], map[], map[];
    }

    /** SADD key member: idempotent set insertion. */
    method SAdd(key: string, member: string)
      modifies this
      ensures sets == old(sets)[key := old(SetAt(key)) + {member}]
      ensures lists == old(lists) && pushed == old(pushed)
    {
      sets := sets[key := SetAt(key) + {member}];
    }

    /** SREM key member: idempotent set removal. */
    method SRem(key: string, member: string)
      modifies this
      ensures sets == old(sets)[key := old(SetAt(key)) - {member}]
      ensures lists == old(lists) && pushed == old(pushed)
    {
      sets := sets[key := SetAt(key) - {member}];
    }

    /** SCARD key: the number of distinct members. */
    method SCard(key: string) returns (n: nat)
      ensures n == |SetAt(key)|
    {
      n := |SetAt(key)|;
    }

    /** SMEMBERS key, as a set (Redis gives no order). */
    method SMembers(key: string) returns (s: set<string>)
      ensures s == SetAt(key)
    {
      s := SetAt(key);
    }

    /** LPUSH key v: the new value becomes the head of the list. */
    method LPush(key: string, v: V)
      modifies this
      ensures lists == old(lists)[key := [v] + old(ListAt(key))]
      ensures pushed == old(pushed)[key := old(PushedAt(key)) + [v]]
      ensures sets == old(sets)
    {
      lists := lists[key := [v] + ListAt(key)];
      pushed := pushed[key := PushedAt(key) + [v]];
    }

    /** LTRIM key start stop: keep only the given index range. */
    method LTrim(key: string, start: int, stop: int)
      modifies this
      ensures lists == old(lists)[key := RangeOf(old(ListAt(key)), start, stop)]
      ensures sets == old(sets) && pushed == old(pushed)
    {
      lists := lists[key := RangeOf(ListAt(key), start, stop)];
    }

    /** LRANGE key start stop. */
    method LRange(key: string, start: int, stop: int) returns (s: seq<V>)
      ensures |s| <= |ListAt(key)|
      ensures s == RangeOf(ListAt(key), start, stop)
    {
      s := RangeOf(ListAt(key), start, stop);
    }
  }
}
