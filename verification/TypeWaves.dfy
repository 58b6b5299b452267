/** The batched forms: a wave must give each position what the one-at-a-time call gives, and its packet
    cost is exact (`eval.rs`, `method.rs`). */
module TypeWaves {
  import opened Wrappers
  import opened Bytes
  import opened Tables
  import opened TypeCaches

  // ----- signatures -----

  /** The distinct types asked about that the cache does not know. */
  function Missing(cached: set<TypeKey>, ids: seq<TypeKey>): set<TypeKey> {
    set id | id in ids && id !in cached
  }

  /** What asking one id after the other costs: an id is asked for until it is cached. */
  function LoopPackets(cached: set<TypeKey>, jvm: Jvm, ids: seq<TypeKey>): nat
    decreases |ids|
  {
    if ids == [] then 0
    else if ids[0] in cached then LoopPackets(cached, jvm, ids[1..])
    else 1 + LoopPackets(if About(jvm, ids[0]).signature.Success? then cached + {ids[0]} else cached, jvm, ids[1..])
  }

  ghost predicate Distinct(ids: seq<TypeKey>) {
    forall i, j :: 0 <= i < j < |ids| ==> ids[i] != ids[j]
  }

  lemma {:induction false} DistinctCount(ids: seq<TypeKey>, s: set<TypeKey>)
    requires Distinct(ids) && forall id :: id in s <==> id in ids
    ensures |ids| == |s|
    decreases |ids|
  {
    if ids == [] {
      assert s == {};
    } else {
      forall id ensures id in s - {ids[0]} <==> id in ids[1..] {
        if id in ids[1..] {
          var k :| 0 <= k < |ids[1..]| && ids[1..][k] == id;
          assert ids[0] != ids[k + 1];
        }
      }
      DistinctCount(ids[1..], s - {ids[0]});
      assert ids[0] in s;
    }
  }

  /** The ids worth asking for, in order of first appearance. */
  method ListWanted(c: Connection, ids: seq<TypeKey>) returns (wanted: seq<TypeKey>)
    ensures Distinct(wanted) && forall id :: id in wanted <==> id in Missing(c.signatures.Keys, ids)
  {
    wanted := [];
    for i := 0 to |ids|
      invariant Distinct(wanted) && forall id :: id in wanted <==> id in Missing(c.signatures.Keys, ids[..i])
    {
      var id := ids[i];
      assert ids[..i + 1] == ids[..i] + [id];
      if id !in c.signatures && id !in wanted {
        wanted := wanted + [id];
      }
    }
    assert ids[..|ids|] == ids;
  }

  /** The wave itself, and its answers written back as the single read writes them. */
  method AskWanted(c: Connection, wanted: seq<TypeKey>)
    requires c.Coherent()
    modifies c`signatures, c`packets
    ensures c.Coherent() && old(c.signatures.Keys) <= c.signatures.Keys
    ensures forall id :: id in wanted && About(c.jvm, id).signature.Success? ==> id in c.signatures
    ensures forall id :: id in c.signatures ==> id in old(c.signatures) || id in wanted
    ensures c.packets == old(c.packets) + |wanted|
  {
    c.packets := c.packets + |wanted|;
    hide Connection.Coherent;
    for i := 0 to |wanted|
      invariant c.Coherent() && old(c.signatures.Keys) <= c.signatures.Keys && c.packets == old(c.packets) + |wanted|
      invariant forall k :: 0 <= k < i && About(c.jvm, wanted[k]).signature.Success? ==> wanted[k] in c.signatures
      invariant forall id :: id in c.signatures ==> id in old(c.signatures) || id in wanted
    {
      var reply := About(c.jvm, wanted[i]).signature;
      if reply.Success? {
        c.PutSignature(wanted[i], reply.value);
      }
    }
  }

  /** Every position is answered from the cache, hit and fresh answer alike. */
  method ReadBack(c: Connection, ids: seq<TypeKey>) returns (results: seq<Result<Text>>)
    requires c.Coherent() && forall id :: id in ids && About(c.jvm, id).signature.Success? ==> id in c.signatures
    ensures |results| == |ids|
    ensures forall i :: 0 <= i < |ids| && About(c.jvm, ids[i]).signature.Success? ==>
      results[i] == About(c.jvm, ids[i]).signature
    ensures forall i :: 0 <= i < |ids| && About(c.jvm, ids[i]).signature.Failure? ==> results[i] == Failure(Protocol)
  {
    results := [];
    for i := 0 to |ids|
      invariant |results| == i
      invariant forall k :: 0 <= k < i && About(c.jvm, ids[k]).signature.Success? ==>
        results[k] == About(c.jvm, ids[k]).signature
      invariant forall k :: 0 <= k < i && About(c.jvm, ids[k]).signature.Failure? ==> results[k] == Failure(Protocol)
    {
      results := results + [if ids[i] in c.signatures then Success(c.signatures[ids[i]]) else Failure(Protocol)];
    }
  }

  /** `read_signatures_independently`: in each position the single call's signature, or a failure if the single
      call fails. */
  method ReadSignaturesIndependently(c: Connection, ids: seq<TypeKey>) returns (results: seq<Result<Text>>)
    requires c.Coherent()
    modifies c`signatures, c`packets
    ensures c.Coherent() && |results| == |ids|
    ensures forall i :: 0 <= i < |ids| && About(c.jvm, ids[i]).signature.Success? ==>
      results[i] == About(c.jvm, ids[i]).signature
    ensures forall i :: 0 <= i < |ids| && About(c.jvm, ids[i]).signature.Failure? ==> results[i] == Failure(Protocol)
    ensures forall id :: id in c.signatures <==>
      id in old(c.signatures) || (id in ids && About(c.jvm, id).signature.Success?)
    ensures c.packets == old(c.packets) + |set id | id in ids && id !in old(c.signatures.Keys)|
    ensures c.packets <= old(c.packets) + LoopPackets(old(c.signatures.Keys), c.jvm, ids)
  {
    hide LoopPackets;
    ghost var known := c.signatures.Keys;
    var wanted := ListWanted(c, ids);
    DistinctCount(wanted, Missing(known, ids));
    WaveNeverCostsMore(known, c.jvm, ids);
    assert Missing(known, ids) == set id | id in ids && id !in known;
    AskWanted(c, wanted);
    forall id | id in ids ensures id in known || id in wanted {
      assert id !in known ==> id in Missing(known, ids);
    }
    results := ReadBack(c, ids);
  }

  lemma LoopStep(cached: set<TypeKey>, jvm: Jvm, ids: seq<TypeKey>, i: nat)
    requires i < |ids|
    ensures LoopPackets(cached, jvm, ids[i..])
            == (if ids[i] in cached then 0 else 1)
               + LoopPackets(if About(jvm, ids[i]).signature.Success? then cached + {ids[i]} else cached, jvm,
                             ids[i + 1..])
  {
    assert ids[i..][0] == ids[i] && ids[i..][1..] == ids[i + 1..];
    if ids[i] in cached {
      assert cached + {ids[i]} == cached;
    }
  }

  /** The loop the wave replaces. */
  method ReadSignaturesInALoop(c: Connection, ids: seq<TypeKey>) returns (results: seq<Result<Text>>)
    requires c.Coherent()
    modifies c`signatures, c`packets
    ensures c.Coherent() && |results| == |ids|
    ensures forall i :: 0 <= i < |ids| ==> results[i] == About(c.jvm, ids[i]).signature
    ensures c.packets == old(c.packets) + LoopPackets(old(c.signatures.Keys), c.jvm, ids)
  {
    results := [];
    assert ids[0..] == ids;
    for i := 0 to |ids|
      invariant c.Coherent() && |results| == i
      invariant forall k :: 0 <= k < i ==> results[k] == About(c.jvm, ids[k]).signature
      invariant c.packets + LoopPackets(c.signatures.Keys, c.jvm, ids[i..])
                == old(c.packets) + LoopPackets(old(c.signatures.Keys), c.jvm, ids)
    {
      hide LoopPackets;
      ghost var before := c.signatures.Keys;
      LoopStep(before, c.jvm, ids, i);
      var r := c.GetSignature(ids[i]);
      assert c.signatures.Keys == if r.Success? then before + {ids[i]} else before;
      results := results + [r];
    }
    assert ids[|ids|..] == [];
  }

  /** One packet per distinct unknown type is never more than the loop sends, and is exactly what the loop
      sends when every one of them can be read. */
  lemma {:induction false} WaveNeverCostsMore(cached: set<TypeKey>, jvm: Jvm, ids: seq<TypeKey>)
    ensures |Missing(cached, ids)| <= LoopPackets(cached, jvm, ids)
    ensures (forall id :: id in Missing(cached, ids) ==> About(jvm, id).signature.Success?) ==>
      |Missing(cached, ids)| == LoopPackets(cached, jvm, ids)
    decreases |ids|
  {
    if ids != [] {
      var id := ids[0];
      assert ids == [id] + ids[1..];
      if id in cached {
        assert Missing(cached, ids) == Missing(cached, ids[1..]);
        WaveNeverCostsMore(cached, jvm, ids[1..]);
      } else {
        assert Missing(cached, ids) == {id} + Missing(cached + {id}, ids[1..]);
        if About(jvm, id).signature.Success? {
          WaveNeverCostsMore(cached + {id}, jvm, ids[1..]);
        } else {
          WaveNeverCostsMore(cached, jvm, ids[1..]);
          SubsetSize(Missing(cached + {id}, ids[1..]), Missing(cached, ids[1..]));
        }
      }
    }
  }

  lemma {:induction false} SubsetSize(a: set<TypeKey>, b: set<TypeKey>)
    requires a <= b
    ensures |a| <= |b|
    decreases |a|
  {
    if x :| x in a {
      SubsetSize(a - {x}, b - {x});
    }
  }

  // ----- variable tables -----

  type MethodKey = (u64, u64)
  datatype VariableFacts = VariableFacts(generic: Result<seq<Row>>, plain: Result<seq<Row>>)
  type Methods = map<MethodKey, VariableFacts>

  function VariablesOf(jvm: Methods, pair: MethodKey): VariableFacts {
    var unknown := Failure(JdwpErrorCode(INVALID_OBJECT));
    if pair in jvm then jvm[pair] else VariableFacts(unknown, unknown)
  }

  predicate Refused(r: Result<seq<Row>>) {
    r == Failure(JdwpErrorCode(NOT_IMPLEMENTED))
  }

  /** `get_variable_table`: two reads if the JVM refuses the generic command, else one. */
  method GetVariableTable(jvm: Methods, pair: MethodKey) returns (r: Result<seq<Row>>, packets: nat)
    ensures r == WithFallback(VariablesOf(jvm, pair).generic, VariablesOf(jvm, pair).plain)
    ensures packets == 1 + RefusedAmong(jvm, [pair])
    ensures pair in jvm && jvm[pair].generic == Failure(JdwpErrorCode(99)) ==> r == jvm[pair].plain && packets == 2
    ensures pair in jvm && jvm[pair].generic != Failure(JdwpErrorCode(99)) ==> r == jvm[pair].generic && packets == 1
    ensures pair !in jvm ==> r == Failure(JdwpErrorCode(20)) && packets == 1
  {
    assert [pair][..0] == [];
    packets := 1;
    r := VariablesOf(jvm, pair).generic;
    if Refused(r) {
      packets := 2;
      r := VariablesOf(jvm, pair).plain;
    }
  }

  function RefusedAmong(jvm: Methods, pairs: seq<MethodKey>): nat {
    if pairs == [] then 0
    else
      var refused := Refused(VariablesOf(jvm, pairs[|pairs| - 1]).generic);
      RefusedAmong(jvm, pairs[..|pairs| - 1]) + (if refused then 1 else 0)
  }

  lemma RefusedStep(jvm: Methods, pairs: seq<MethodKey>)
    requires pairs != []
    ensures var p := pairs[|pairs| - 1];
      RefusedAmong(jvm, pairs) == RefusedAmong(jvm, pairs[..|pairs| - 1])
                                  + if p in jvm && jvm[p].generic == Failure(JdwpErrorCode(99)) then 1 else 0
  {
  }

  /** The refused positions, each counted once. */
  lemma {:induction false} RefusedCount(jvm: Methods, pairs: seq<MethodKey>)
    ensures RefusedAmong(jvm, pairs)
            == |set i: nat | i < |pairs| && pairs[i] in jvm && jvm[pairs[i]].generic == Failure(JdwpErrorCode(99))|
  {
    if pairs != [] {
      var n := |pairs| - 1;
      RefusedCount(jvm, pairs[..n]);
      hide RefusedAmong;
      RefusedStep(jvm, pairs);
      var before := set i: nat | i < n && pairs[i] in jvm && jvm[pairs[i]].generic == Failure(JdwpErrorCode(99));
      var now := set i: nat | i < n + 1 && pairs[i] in jvm && jvm[pairs[i]].generic == Failure(JdwpErrorCode(99));
      assert before == set i: nat | i < |pairs[..n]| && pairs[..n][i] in jvm
                                    && jvm[pairs[..n][i]].generic == Failure(JdwpErrorCode(99));
      var refused := pairs[n] in jvm && jvm[pairs[n]].generic == Failure(JdwpErrorCode(99));
      assert now == before + if refused then {n} else {};
    }
  }

  function Wave(jvm: Methods, pairs: seq<MethodKey>, withGeneric: bool, i: nat): Result<seq<Row>>
    requires i < |pairs|
  {
    if withGeneric then VariablesOf(jvm, pairs[i]).generic else VariablesOf(jvm, pairs[i]).plain
  }

  method VariableTableWave(jvm: Methods, pairs: seq<MethodKey>, withGeneric: bool)
    returns (answers: seq<Result<seq<Row>>>)
    ensures |answers| == |pairs| && forall i :: 0 <= i < |pairs| ==> answers[i] == Wave(jvm, pairs, withGeneric, i)
  {
    answers := [];
    for i := 0 to |pairs|
      invariant |answers| == i && forall k :: 0 <= k < i ==> answers[k] == Wave(jvm, pairs, withGeneric, k)
    {
      answers := answers + [Wave(jvm, pairs, withGeneric, i)];
    }
  }

  /** The refused positions, in order, with their pairs. */
  method ListRetries(ghost jvm: Methods, pairs: seq<MethodKey>, generic: seq<Result<seq<Row>>>)
    returns (retry: seq<nat>, retryPairs: seq<MethodKey>)
    requires |generic| == |pairs| && forall i :: 0 <= i < |pairs| ==> generic[i] == Wave(jvm, pairs, true, i)
    ensures |retry| == |retryPairs| == RefusedAmong(jvm, pairs)
    ensures forall k :: 0 <= k < |retry| ==> retry[k] < |pairs| && retryPairs[k] == pairs[retry[k]]
    ensures forall i :: 0 <= i < |pairs| ==> (i in retry <==> Refused(generic[i]))
  {
    retry, retryPairs := [], [];
    for at := 0 to |pairs|
      invariant |retry| == |retryPairs| == RefusedAmong(jvm, pairs[..at])
      invariant forall k :: 0 <= k < |retry| ==> retry[k] < at && retryPairs[k] == pairs[retry[k]]
      invariant forall i :: 0 <= i < at ==> (i in retry <==> Refused(generic[i]))
    {
      assert pairs[..at + 1][..at] == pairs[..at];
      if Refused(generic[at]) {
        retry, retryPairs := retry + [at], retryPairs + [pairs[at]];
      }
    }
    assert pairs[..|pairs|] == pairs;
  }

  /** `read_variable_tables_independently`: each position gets what `get_variable_table` would return, for
      one packet per pair and one more per refusal. */
  method ReadVariableTablesIndependently(jvm: Methods, pairs: seq<MethodKey>)
    returns (results: seq<Result<seq<Row>>>, packets: nat)
    ensures |results| == |pairs|
    ensures forall i :: 0 <= i < |pairs| ==>
      results[i] == WithFallback(VariablesOf(jvm, pairs[i]).generic, VariablesOf(jvm, pairs[i]).plain)
    ensures packets == |pairs| + RefusedAmong(jvm, pairs)
    ensures forall i :: 0 <= i < |pairs| && pairs[i] in jvm ==>
      results[i] == if jvm[pairs[i]].generic == Failure(JdwpErrorCode(99)) then jvm[pairs[i]].plain
                    else jvm[pairs[i]].generic
    ensures forall i :: 0 <= i < |pairs| && pairs[i] !in jvm ==> results[i] == Failure(JdwpErrorCode(20))
  {
    var generic := VariableTableWave(jvm, pairs, true);
    packets := |pairs|;
    var retry, retryPairs := ListRetries(jvm, pairs, generic);
    if retry == [] {
      return generic, packets;
    }
    var plain := VariableTableWave(jvm, retryPairs, false);
    packets := packets + |retryPairs|;
    var out := new Result<seq<Row>>[|generic|](i requires 0 <= i < |generic| => generic[i]);
    for k := 0 to |retry|
      invariant forall i :: 0 <= i < |pairs| ==>
        out[i] == if i in retry[..k] then VariablesOf(jvm, pairs[i]).plain else generic[i]
    {
      out[retry[k]] := plain[k];
      assert retry[..k + 1] == retry[..k] + [retry[k]];
    }
    assert retry[..|retry|] == retry;
    results := out[..];
  }
}
