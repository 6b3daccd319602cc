/** The DNS cache as an object, its dictionaries updated in place. */
module DnsCache {
  import opened Common
  import opened DnsSpec

  /** `_DNSCacheTable`. */
  class DnsCacheTable {
    const ttl: Option<int>
    const maxSize: nat
    var order: seq<HostPort>
    var loops: map<HostPort, Loop>
    var timestamps: map<HostPort, int>

    ghost function State(): Table
      reads this
    {
      Table(order, loops, timestamps)
    }

    ghost predicate Ok()
      reads this
    {
      Valid(State(), Config(ttl, maxSize))
    }

    constructor (ttl: Option<int>, maxSize: nat)
      ensures Ok() && State() == EMPTY && this.ttl == ttl && this.maxSize == maxSize
    {
      this.ttl, this.maxSize := ttl, maxSize;
      order, loops, timestamps := [], map[], map[];
    }

    method Add(key: HostPort, addrs: seq<string>, now: int)
      requires Ok()
      modifies this
      ensures Ok() && State() == DnsSpec.Add(old(State()), Config(ttl, maxSize), key, addrs, now)
    {
      AddKeepsValid(State(), Config(ttl, maxSize), key, addrs, now);
      RemoveAbsent(order, key);
      MoveToEndFacts(order, key);
      if key in loops {
        order := MoveToEnd(order, key);
      } else {
        order := order + [key];
      }
      loops := loops[key := Loop(addrs, 0)];
      if ttl.Some? {
        timestamps := timestamps[key := now];
      }
      if |order| > maxSize {
        var oldest := order[0];
        RemoveFirst(order);
        order := order[1..];
        loops := loops - {oldest};
        timestamps := timestamps - {oldest};
      }
    }

    method RemoveKey(key: HostPort)
      requires Ok()
      modifies this
      ensures Ok() && State() == DnsSpec.Drop(old(State()), key)
      ensures key !in old(loops) ==> State() == old(State())
    {
      if key !in loops {
        DropAbsent(State(), Config(ttl, maxSize), key);
      }
      DropKeepsValid(State(), Config(ttl, maxSize), key);
      order := Remove(order, key);
      loops := loops - {key};
      timestamps := timestamps - {key};
    }

    method Clear()
      modifies this
      ensures Ok() && State() == EMPTY
    {
      order, loops, timestamps := [], map[], map[];
    }

    method NextAddrs(key: HostPort) returns (r: Result<seq<string>, LookupError>)
      requires Ok()
      modifies this
      ensures Ok() && (State(), r) == DnsSpec.Next(old(State()), key)
    {
      NextKeepsValid(State(), Config(ttl, maxSize), key);
      if key !in loops {
        return Failure(KeyError);
      }
      var loop := loops[key];
      var length := |loop.addrs|;
      if length == 0 {
        return Failure(StopIteration);
      }
      var addrs: seq<string> := [];
      var pos := loop.pos;
      while |addrs| < length
        invariant |addrs| <= length && pos == loop.pos + |addrs|
        invariant addrs == Taken(loop)[..|addrs|]
      {
        addrs := addrs + [loop.addrs[pos % length]];
        pos := pos + 1;
      }
      assert addrs == Taken(loop);
      loops := loops[key := loop.(pos := pos + 1)];
      order := MoveToEnd(order, key);
      return Success(addrs);
    }

    /** `expired`: without a ttl nothing expires, not even an unknown key. */
    method Expired(key: HostPort, now: int) returns (r: Result<bool, LookupError>)
      requires Ok()
      ensures r.Failure? <==> ttl.Some? && key !in loops
      ensures r.Failure? ==> r.error == KeyError
      ensures r.Success? ==> (r.value <==> ttl.Some? && timestamps[key] + ttl.value < now)
    {
      if ttl.None? {
        return Success(false);
      }
      if key !in timestamps {
        return Failure(KeyError);
      }
      return Success(timestamps[key] + ttl.value < now);
    }
  }
}
