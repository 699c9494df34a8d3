/** Who dealt how much of a creature's damage, and how its experience is split among them. */
module Participation {
  import opened Wrappers
  import opened Positions
  import opened Skills

  type Table = seq<(AgentKey, U64)>

  ghost predicate Distinct(t: Table) {
    forall i, j :: 0 <= i < j < |t| ==> t[i].0 != t[j].0
  }

  function Recorded(t: Table, attacker: AgentKey, damage: U32): (r: Table)
    ensures |t| <= |r| <= |t| + 1
  {
    if t == [] then [(attacker, damage)]
    else if t[0].0 == attacker then [(attacker, SaturatingAdd64(t[0].1, damage))] + t[1..]
    else [t[0]] + Recorded(t[1..], attacker, damage)
  }

  function Total(t: Table): nat {
    if t == [] then 0 else t[0].1 + Total(t[1..])
  }

  function DamageBy(t: Table, key: AgentKey): nat {
    if t == [] then 0 else (if t[0].0 == key then t[0].1 else 0) + DamageBy(t[1..], key)
  }

  ghost predicate IsNew(t: Table, attacker: AgentKey) {
    forall j :: 0 <= j < |t| ==> t[j].0 != attacker
  }

  lemma {:induction false} KnownIsRaised(t: Table, i: nat, attacker: AgentKey, damage: U32)
    requires i < |t| && t[i].0 == attacker && IsNew(t[..i], attacker)
    ensures Recorded(t, attacker, damage) == t[i := (attacker, SaturatingAdd64(t[i].1, damage))]
  {
    if i > 0 {
      assert t[..i][0] == t[0] && t[1..][..i - 1] == t[..i][1..];
      KnownIsRaised(t[1..], i - 1, attacker, damage);
    }
  }

  lemma {:induction false} NewIsAppended(t: Table, attacker: AgentKey, damage: U32)
    requires IsNew(t, attacker)
    ensures Recorded(t, attacker, damage) == t + [(attacker, damage)]
  {
    if t != [] { NewIsAppended(t[1..], attacker, damage); }
  }

  class Register {
    var entries: Table

    constructor ()
      ensures entries == []
    {
      entries := [];
    }

    // Adds to the attacker's entry in place, or appends one.
    method Record(attacker: AgentKey, damage: U32)
      modifies this
      ensures entries == Recorded(old(entries), attacker, damage)
    {
      var i := 0;
      while i < |entries|
        invariant 0 <= i <= |entries| && entries == old(entries)
        invariant IsNew(entries[..i], attacker)
      {
        if entries[i].0 == attacker {
          KnownIsRaised(entries, i, attacker, damage);
          entries := entries[i := (attacker, SaturatingAdd64(entries[i].1, damage))];
          return;
        }
        i := i + 1;
      }
      assert entries[..i] == entries;
      NewIsAppended(entries, attacker, damage);
      entries := entries + [(attacker, damage)];
    }
  }

  // One hit raises the attacker's own entry and the total by exactly itself, and no one else's.
  lemma {:induction false} RecordAdds(t: Table, attacker: AgentKey, damage: U32)
    requires Distinct(t) && DamageBy(t, attacker) + damage <= U64_MAX
    ensures Distinct(Recorded(t, attacker, damage))
    ensures forall i :: 0 <= i < |Recorded(t, attacker, damage)| ==>
              Recorded(t, attacker, damage)[i].0 == attacker
              || exists j :: 0 <= j < |t| && t[j].0 == Recorded(t, attacker, damage)[i].0
    ensures Total(Recorded(t, attacker, damage)) == Total(t) + damage
    ensures forall key :: DamageBy(Recorded(t, attacker, damage), key)
                          == DamageBy(t, key) + (if key == attacker then damage else 0)
  {
    if t != [] {
      if t[0].0 == attacker {
        AbsentDealtNothing(t[1..], attacker);
      } else {
        RecordAdds(t[1..], attacker, damage);
        var tail := Recorded(t[1..], attacker, damage);
        forall i | 0 <= i < |tail| ensures tail[i].0 != t[0].0 {
          if tail[i].0 != attacker {
            var j :| 0 <= j < |t| - 1 && t[1..][j].0 == tail[i].0;
            assert t[j + 1].0 == tail[i].0;
          }
        }
      }
    }
  }

  lemma {:induction false} AbsentDealtNothing(t: Table, key: AgentKey)
    requires forall i :: 0 <= i < |t| ==> t[i].0 != key
    ensures DamageBy(t, key) == 0
  {
    if t != [] { AbsentDealtNothing(t[1..], key); }
  }

  // ---------------------------------------------------------------- shares

  function MulDiv(a: nat, b: nat, c: nat): (q: nat)
    requires c > 0
    ensures q * c <= a * b < q * c + c
  {
    ProductIsNat(a, b);
    FloorBounds(a * b, c);
    (a * b) / c
  }

  lemma ProductIsNat(a: nat, b: nat)
    ensures a * b >= 0
  {
  }

  lemma FloorBounds(a: nat, b: nat)
    requires b > 0
    ensures 0 <= a / b && (a / b) * b <= a < (a / b) * b + b
  {
  }

  function SharesOf(t: Table, pool: U32, total: nat): (r: seq<(AgentKey, nat)>)
    requires total > 0
    ensures |r| <= |t|
  {
    if t == [] then []
    else
      (if MulDiv(pool, t[0].1, total) > 0 then [(t[0].0, MulDiv(pool, t[0].1, total))] else [])
      + SharesOf(t[1..], pool, total)
  }

  // floor(pool * damage / total) for every contributor it leaves something to.
  function Shares(t: Table, pool: U32): seq<(AgentKey, nat)> {
    if Total(t) == 0 || pool == 0 then [] else SharesOf(t, pool, Total(t))
  }

  // Nobody is paid nothing.
  lemma {:induction false} SharesAreSomething(t: Table, pool: U32, total: nat)
    requires total > 0
    ensures forall i :: 0 <= i < |SharesOf(t, pool, total)| ==> SharesOf(t, pool, total)[i].1 > 0
  {
    if t != [] {
      var (share, tail) := (MulDiv(pool, t[0].1, total), SharesOf(t[1..], pool, total));
      SharesAreSomething(t[1..], pool, total);
      assert [] + tail == tail;
      forall i | 0 < i < |[(t[0].0, share)] + tail| ensures ([(t[0].0, share)] + tail)[i] == tail[i - 1] {}
    }
  }

  function Sum(shares: seq<(AgentKey, nat)>): nat {
    if shares == [] then 0 else shares[0].1 + Sum(shares[1..])
  }

  // Each floor loses less than one unit of the pool.
  lemma {:induction false} SumOfFloors(t: Table, pool: U32, total: nat)
    requires total > 0
    ensures Sum(SharesOf(t, pool, total)) * total <= pool * Total(t)
    ensures pool * Total(t) <= Sum(SharesOf(t, pool, total)) * total + |t| * (total - 1)
  {
    if t != [] {
      SumOfFloors(t[1..], pool, total);
      SumOfShares(t, pool, total);
      AddOneFloor(pool, t[0].1, Total(t[1..]), MulDiv(pool, t[0].1, total),
                  Sum(SharesOf(t[1..], pool, total)), |t| - 1, total);
    }
  }

  lemma SumOfShares(t: Table, pool: U32, total: nat)
    requires total > 0 && t != []
    ensures Sum(SharesOf(t, pool, total)) == MulDiv(pool, t[0].1, total) + Sum(SharesOf(t[1..], pool, total))
  {
    var share, tail := MulDiv(pool, t[0].1, total), SharesOf(t[1..], pool, total);
    assert ([(t[0].0, share)] + tail)[1..] == tail && [] + tail == tail;
  }

  lemma AddOneFloor(pool: nat, d: nat, rest: nat, share: nat, sum: nat, n: nat, total: nat)
    requires share * total <= pool * d <= share * total + (total - 1)
    requires sum * total <= pool * rest <= sum * total + n * (total - 1)
    ensures (share + sum) * total <= pool * (d + rest) <= (share + sum) * total + (n + 1) * (total - 1)
  {
    assert (share + sum) * total == share * total + sum * total;
    assert pool * (d + rest) == pool * d + pool * rest;
    assert (n + 1) * (total - 1) == n * (total - 1) + (total - 1);
  }

  lemma WithinOnePointEach(pool: nat, given: nat, n: nat, total: nat)
    requires total > 0 && n > 0
    requires given * total <= pool * total <= given * total + n * (total - 1)
    ensures given <= pool && pool - given < n
  {
    assert given >= pool + 1 ==> given * total >= (pool + 1) * total;
    assert (pool + 1) * total == pool * total + total;
    assert (pool - given) * total == pool * total - given * total;
    assert pool - given >= n ==> (pool - given) * total >= n * total;
    assert n * (total - 1) == n * total - n;
  }

  // The experience handed out never exceeds what the creature was worth, and what the
  // rounding keeps back is less than one point per contributor.
  lemma {:induction false} SharesNeverExceedThePool(t: Table, pool: U32)
    ensures Sum(Shares(t, pool)) <= pool
    ensures Total(t) > 0 ==> pool - Sum(Shares(t, pool)) < |t|
  {
    if Total(t) > 0 && pool > 0 {
      SumOfFloors(t, pool, Total(t));
      WithinOnePointEach(pool, Sum(Shares(t, pool)), |t|, Total(t));
    }
  }
}
