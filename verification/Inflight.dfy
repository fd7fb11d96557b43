/** In-flight counters of the sequence trackers: how many states there are, and how
    many of them belong to each source address. A state's key begins with the
    address and a NUL byte. */
module Inflight {
  import opened Text

  /** Reading a counter map: a missing key counts zero. */
  function Get(m: map<string, int>, ip: string): (r: int) {
    if ip in m then m[ip] else 0
  }

  ghost function Of(keys: set<string>, ip: string): (r: set<string>) {
    set k | k in keys && BeforeNul(k) == ip
  }

  /** `total` is the number of states and `perIP` the number for each address. */
  ghost predicate Counted(keys: set<string>, perIP: map<string, int>, total: int) {
    && total == |keys|
    && forall ip :: Get(perIP, ip) == |Of(keys, ip)|
  }

  lemma OfAdd(keys: set<string>, key: string, ip: string)
    requires key !in keys
    ensures |Of(keys + {key}, ip)| == |Of(keys, ip)| + if BeforeNul(key) == ip then 1 else 0
  {
    if BeforeNul(key) == ip {
      assert Of(keys + {key}, ip) == Of(keys, ip) + {key};
    } else {
      assert Of(keys + {key}, ip) == Of(keys, ip);
    }
  }

  lemma CountedAdd(keys: set<string>, perIP: map<string, int>, total: int, key: string)
    requires Counted(keys, perIP, total) && key !in keys
    ensures var ip := BeforeNul(key);
            Counted(keys + {key}, perIP[ip := Get(perIP, ip) + 1], total + 1)
  {
    var ip := BeforeNul(key);
    forall x ensures Get(perIP[ip := Get(perIP, ip) + 1], x) == |Of(keys + {key}, x)| {
      OfAdd(keys, key, x);
    }
  }

  /** Removing a state lowers both counters by one, and neither was zero. A counter
      that reaches zero may be kept or dropped. */
  lemma CountedRemove(keys: set<string>, perIP: map<string, int>, total: int, key: string)
    requires Counted(keys, perIP, total) && key in keys
    ensures var ip := BeforeNul(key);
            && total > 0 && Get(perIP, ip) > 0 && ip in perIP
            && Counted(keys - {key}, perIP[ip := Get(perIP, ip) - 1], total - 1)
            && (Get(perIP, ip) == 1 ==> Counted(keys - {key}, perIP - {ip}, total - 1))
  {
    var ip, rest := BeforeNul(key), keys - {key};
    assert rest + {key} == keys;
    OfAdd(rest, key, ip);
    assert Get(perIP, ip) == |Of(keys, ip)|;
    forall x ensures Get(perIP[ip := Get(perIP, ip) - 1], x) == |Of(rest, x)| {
      OfAdd(rest, key, x);
    }
    if Get(perIP, ip) == 1 {
      forall x ensures Get(perIP - {ip}, x) == |Of(rest, x)| {
        OfAdd(rest, key, x);
        assert Get(perIP, x) == |Of(keys, x)|;
      }
    }
  }
}
