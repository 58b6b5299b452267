/** The per-connection cache of type metadata (`TypeCache` in `connection.rs`) and the calls that read
    through it, one at a time and in waves (`eval.rs`, `reftype.rs`, `method.rs`, `vm.rs`). */
module TypeCaches {
  import opened Wrappers
  import opened Bytes
  import opened Tables

  const NOT_IMPLEMENTED := 99
  const INVALID_OBJECT := 20

  type TypeKey = u64

  /** What the JVM answers about one type at one moment, each reply decoded: an error is an error code, a
      reply that does not parse, or one that never came. */
  datatype Facts = Facts(
    signature: Result<Text>,
    superclass: Result<u64>, // 0 for none
    interfaces: Result<seq<u64>>,
    genericFields: Result<seq<Row>>,
    plainFields: Result<seq<Row>>,
    genericMethods: Result<seq<Row>>,
    plainMethods: Result<seq<Row>>)

  type Jvm = map<TypeKey, Facts>

  function About(jvm: Jvm, id: TypeKey): Facts {
    if id in jvm then jvm[id]
    else
      var e := JdwpErrorCode(INVALID_OBJECT);
      Facts(Failure(e), Failure(e), Failure(e), Failure(e), Failure(e), Failure(e), Failure(e))
  }

  // ----- the answers of an uncached call -----

  /** The generic command, or the plain one if the JVM does not implement the generic one. */
  function WithFallback<T>(generic: Result<T>, plain: Result<T>): Result<T> {
    if generic == Failure(JdwpErrorCode(NOT_IMPLEMENTED)) then plain else generic
  }

  function AskFields(jvm: Jvm, id: TypeKey): Result<seq<Row>> {
    WithFallback(About(jvm, id).genericFields, About(jvm, id).plainFields)
  }

  function AskMethods(jvm: Jvm, id: TypeKey): Result<seq<Row>> {
    WithFallback(About(jvm, id).genericMethods, About(jvm, id).plainMethods)
  }

  function AskSuperclass(jvm: Jvm, id: TypeKey): Result<Option<u64>> {
    match About(jvm, id).superclass
    case Success(parent) => Success(if parent == 0 then None else Some(parent))
    case Failure(e) => Failure(e)
  }

  datatype Query =
    | Signature(id: TypeKey) | Superclass(id: TypeKey) | Interfaces(id: TypeKey)
    | Fields(id: TypeKey) | Methods(id: TypeKey)
  datatype Answer =
    | SignatureIs(signature: Result<Text>)
    | SuperclassIs(superclass: Result<Option<u64>>)
    | InterfacesAre(interfaces: Result<seq<u64>>)
    | RowsAre(rows: Result<seq<Row>>)

  function Ask(jvm: Jvm, q: Query): Answer {
    match q
    case Signature(id) => SignatureIs(About(jvm, id).signature)
    case Superclass(id) => SuperclassIs(AskSuperclass(jvm, id))
    case Interfaces(id) => InterfacesAre(About(jvm, id).interfaces)
    case Fields(id) => RowsAre(AskFields(jvm, id))
    case Methods(id) => RowsAre(AskMethods(jvm, id))
  }

  /** The answer to a question, from what the JVM says of the type: members by the generic command, or by the plain
      one if the JVM answers 99, NOT_IMPLEMENTED; no superclass where it answers 0. */
  ghost predicate IsAnswer(a: Answer, q: Query, facts: Facts) {
    match q
    case Signature(_) => a == SignatureIs(facts.signature)
    case Superclass(_) =>
      (facts.superclass == Success(0) ==> a == SuperclassIs(Success(None)))
      && (facts.superclass.Success? && facts.superclass.value != 0 ==>
            a == SuperclassIs(Success(Some(facts.superclass.value))))
      && (facts.superclass.Failure? ==> a == SuperclassIs(Failure(facts.superclass.error)))
    case Interfaces(_) => a == InterfacesAre(facts.interfaces)
    case Fields(_) =>
      a == RowsAre(if facts.genericFields == Failure(JdwpErrorCode(99)) then facts.plainFields
                   else facts.genericFields)
    case Methods(_) =>
      a == RowsAre(if facts.genericMethods == Failure(JdwpErrorCode(99)) then facts.plainMethods
                   else facts.genericMethods)
  }

  /** A redefinition the JVM accepts changes what it answers about the redefined types and no others. */
  datatype Op = Read(query: Query) | Redefine(types: seq<TypeKey>, accepted: bool, facts: map<TypeKey, Facts>)

  function Redefined(jvm: Jvm, types: seq<TypeKey>, facts: map<TypeKey, Facts>): Jvm {
    map id | id in jvm.Keys + facts.Keys && (id in jvm || id in types) ::
      if id in facts && id in types then facts[id] else if id in jvm then jvm[id] else facts[id]
  }

  function JvmAfter(jvm: Jvm, op: Op): Jvm {
    if op.Redefine? && op.accepted then Redefined(jvm, op.types, op.facts) else jvm
  }

  /** What a connection without a cache would return for the reads among `ops`, in order. */
  function Uncached(jvm: Jvm, ops: seq<Op>): seq<Answer>
    decreases |ops|
  {
    if ops == [] then []
    else (if ops[0].Read? then [Ask(jvm, ops[0].query)] else []) + Uncached(JvmAfter(jvm, ops[0]), ops[1..])
  }

  // ----- the cache -----

  datatype CachedSuperclass = NotCached | Root | Parent(parent: u64)

  class Connection {
    var signatures: map<TypeKey, Text>
    var fields: map<TypeKey, seq<Row>>
    var methods: map<TypeKey, seq<Row>>
    var superclasses: map<TypeKey, Option<u64>>
    var interfaces: map<TypeKey, seq<u64>>
    var packets: nat
    var jvm: Jvm // the debuggee

    constructor (jvm: Jvm)
      ensures this.jvm == jvm && packets == 0 && Coherent()
      ensures signatures == map[]
    {
      this.jvm, packets := jvm, 0;
      signatures, fields, methods, superclasses, interfaces := map[], map[], map[], map[], map[];
    }

    /** Every cached entry is the JVM's current answer. */
    ghost predicate Coherent()
      reads this
    {
      && (forall id :: id in signatures ==> About(jvm, id).signature == Success(signatures[id]))
      && (forall id :: id in fields ==> AskFields(jvm, id) == Success(fields[id]))
      && (forall id :: id in methods ==> AskMethods(jvm, id) == Success(methods[id]))
      && (forall id :: id in superclasses ==> AskSuperclass(jvm, id) == Success(superclasses[id]))
      && (forall id :: id in interfaces ==> About(jvm, id).interfaces == Success(interfaces[id]))
    }

    method GetSignature(id: TypeKey) returns (r: Result<Text>)
      requires Coherent()
      modifies this`signatures, this`packets
      ensures Coherent() && r == About(jvm, id).signature
      ensures packets == old(packets) + (if id in old(signatures) then 0 else 1)
      ensures signatures == if r.Success? then old(signatures)[id := r.value] else old(signatures)
    {
      if id in signatures {
        return Success(signatures[id]);
      }
      packets := packets + 1;
      r := About(jvm, id).signature;
      if r.Success? {
        PutSignature(id, r.value);
      }
    }

    /** `TypeCache::put_signature`, with what the JVM answered. */
    method PutSignature(id: TypeKey, signature: Text)
      requires Coherent() && About(jvm, id).signature == Success(signature)
      modifies this`signatures
      ensures Coherent() && signatures == old(signatures)[id := signature]
    {
      signatures := signatures[id := signature];
    }

    /** "No superclass" is an entry like any other, and is not "not cached". */
    method CachedParent(id: TypeKey) returns (r: CachedSuperclass)
      requires Coherent()
      ensures r == NotCached <==> id !in superclasses
      ensures r == Root ==> AskSuperclass(jvm, id) == Success(None)
      ensures r.Parent? ==> AskSuperclass(jvm, id) == Success(Some(r.parent))
    {
      if id !in superclasses {
        return NotCached;
      }
      match superclasses[id] {
        case None => r := Root;
        case Some(parent) => r := Parent(parent);
      }
    }

    method GetSuperclass(id: TypeKey) returns (r: Result<Option<u64>>)
      requires Coherent()
      modifies this`superclasses, this`packets
      ensures Coherent() && r == AskSuperclass(jvm, id)
      ensures match About(jvm, id).superclass
        case Success(parent) => r == Success(if parent == 0 then None else Some(parent))
        case Failure(e) => r == Failure(e)
      ensures packets == old(packets) + (if id in old(superclasses) then 0 else 1)
      ensures superclasses == if r.Success? then old(superclasses)[id := r.value] else old(superclasses)
    {
      var cached := CachedParent(id);
      match cached {
        case Root => return Success(None);
        case Parent(p) => return Success(Some(p));
        case NotCached =>
      }
      packets := packets + 1;
      var sc :- About(jvm, id).superclass;
      var parent := if sc == 0 then None else Some(sc);
      superclasses := superclasses[id := parent];
      r := Success(parent);
    }

    method GetInterfaces(id: TypeKey) returns (r: Result<seq<u64>>)
      requires Coherent()
      modifies this`interfaces, this`packets
      ensures Coherent() && r == About(jvm, id).interfaces
      ensures packets == old(packets) + (if id in old(interfaces) then 0 else 1)
      ensures interfaces == if r.Success? then old(interfaces)[id := r.value] else old(interfaces)
    {
      if id in interfaces {
        return Success(interfaces[id]);
      }
      packets := packets + 1;
      r := About(jvm, id).interfaces;
      if r.Success? {
        interfaces := interfaces[id := r.value];
      }
    }

    method ReadFields(id: TypeKey, withGeneric: bool) returns (r: Result<seq<Row>>)
      modifies this`packets
      ensures r == if withGeneric then About(jvm, id).genericFields else About(jvm, id).plainFields
      ensures packets == old(packets) + 1
    {
      packets := packets + 1;
      r := if withGeneric then About(jvm, id).genericFields else About(jvm, id).plainFields;
    }

    method GetFields(id: TypeKey) returns (r: Result<seq<Row>>)
      requires Coherent()
      modifies this`fields, this`packets
      ensures Coherent() && r == AskFields(jvm, id)
      ensures r == if About(jvm, id).genericFields == Failure(JdwpErrorCode(99)) then About(jvm, id).plainFields
                   else About(jvm, id).genericFields
      ensures packets == old(packets) + (if id in old(fields) then 0
                                         else if About(jvm, id).genericFields == Failure(JdwpErrorCode(99)) then 2
                                         else 1)
      ensures fields == if r.Success? then old(fields)[id := r.value] else old(fields)
    {
      if id in fields {
        return Success(fields[id]);
      }
      r := ReadFields(id, true);
      match r {
        case Success(_) =>
        case Failure(e) =>
          if e != JdwpErrorCode(NOT_IMPLEMENTED) {
            return;
          }
          r := ReadFields(id, false);
          if r.Failure? {
            return;
          }
      }
      fields := fields[id := r.value];
    }

    method ReadMethods(id: TypeKey, withGeneric: bool) returns (r: Result<seq<Row>>)
      modifies this`packets
      ensures r == if withGeneric then About(jvm, id).genericMethods else About(jvm, id).plainMethods
      ensures packets == old(packets) + 1
    {
      packets := packets + 1;
      r := if withGeneric then About(jvm, id).genericMethods else About(jvm, id).plainMethods;
    }

    method GetMethods(id: TypeKey) returns (r: Result<seq<Row>>)
      requires Coherent()
      modifies this`methods, this`packets
      ensures Coherent() && r == AskMethods(jvm, id)
      ensures r == if About(jvm, id).genericMethods == Failure(JdwpErrorCode(99)) then About(jvm, id).plainMethods
                   else About(jvm, id).genericMethods
      ensures packets == old(packets) + (if id in old(methods) then 0
                                         else if About(jvm, id).genericMethods == Failure(JdwpErrorCode(99)) then 2
                                         else 1)
      ensures methods == if r.Success? then old(methods)[id := r.value] else old(methods)
    {
      if id in methods {
        return Success(methods[id]);
      }
      r := ReadMethods(id, true);
      match r {
        case Success(_) =>
        case Failure(e) =>
          if e != JdwpErrorCode(NOT_IMPLEMENTED) {
            return;
          }
          r := ReadMethods(id, false);
          if r.Failure? {
            return;
          }
      }
      methods := methods[id := r.value];
    }

    /** `TypeCache::invalidate`: nothing about this type survives. */
    method Invalidate(id: TypeKey)
      modifies this
      ensures jvm == old(jvm) && packets == old(packets)
      ensures signatures == old(signatures) - {id} && superclasses == old(superclasses) - {id}
      ensures interfaces == old(interfaces) - {id}
      ensures fields == old(fields) - {id} && methods == old(methods) - {id}
    {
      signatures := signatures - {id};
      fields := fields - {id};
      methods := methods - {id};
      superclasses := superclasses - {id};
      interfaces := interfaces - {id};
    }

    /** The JVM applies the redefinition before it answers; the reply then decides whether the client
        forgets what it knew. */
    method RedefineClasses(types: seq<TypeKey>, accepted: bool, facts: map<TypeKey, Facts>) returns (r: Result<()>)
      requires Coherent()
      modifies this
      ensures Coherent() && jvm == JvmAfter(old(jvm), Redefine(types, accepted, facts))
      ensures r.Success? == accepted && packets == old(packets) + 1
    {
      hide About, AskFields, AskMethods, AskSuperclass, Redefined;
      packets := packets + 1;
      ghost var before := jvm;
      if !accepted {
        return Failure(Protocol);
      }
      jvm := Redefined(jvm, types, facts);
      ghost var sig, par, ifc, fld, mth := signatures, superclasses, interfaces, fields, methods;
      for i := 0 to |types|
        invariant jvm == Redefined(before, types, facts) && packets == old(packets) + 1
        invariant signatures.Keys <= sig.Keys && superclasses.Keys <= par.Keys && interfaces.Keys <= ifc.Keys
        invariant fields.Keys <= fld.Keys && methods.Keys <= mth.Keys
        invariant forall id :: id in signatures ==> signatures[id] == sig[id] && id !in types[..i]
        invariant forall id :: id in superclasses ==> superclasses[id] == par[id] && id !in types[..i]
        invariant forall id :: id in interfaces ==> interfaces[id] == ifc[id] && id !in types[..i]
        invariant forall id :: id in fields ==> fields[id] == fld[id] && id !in types[..i]
        invariant forall id :: id in methods ==> methods[id] == mth[id] && id !in types[..i]
      {
        Invalidate(types[i]);
        assert types[..i + 1] == types[..i] + [types[i]];
      }
      assert types[..|types|] == types;
      OthersUnchanged(before, types, facts);
      r := Success(());
    }

    method Perform(op: Op) returns (answers: seq<Answer>)
      requires Coherent()
      modifies this
      ensures Coherent() && jvm == JvmAfter(old(jvm), op)
      ensures answers == if op.Read? then [Ask(old(jvm), op.query)] else []
      ensures op.Read? ==> |answers| == 1 && IsAnswer(answers[0], op.query, About(old(jvm), op.query.id))
    {
      answers := [];
      match op {
        case Read(Signature(id)) =>
          var r := GetSignature(id);
          answers := [SignatureIs(r)];
        case Read(Superclass(id)) =>
          var r := GetSuperclass(id);
          answers := [SuperclassIs(r)];
        case Read(Interfaces(id)) =>
          var r := GetInterfaces(id);
          answers := [InterfacesAre(r)];
        case Read(Fields(id)) =>
          var r := GetFields(id);
          answers := [RowsAre(r)];
        case Read(Methods(id)) =>
          var r := GetMethods(id);
          answers := [RowsAre(r)];
        case Redefine(types, accepted, facts) =>
          var r := RedefineClasses(types, accepted, facts);
      }
    }

    /** After any sequence of reads and redefinitions the cache is coherent, and every read returned what
        it would have returned with no cache at all. */
    method PerformAll(ops: seq<Op>) returns (answers: seq<Answer>)
      requires Coherent()
      modifies this
      ensures Coherent() && answers == Uncached(old(jvm), ops)
    {
      answers := [];
      for i := 0 to |ops|
        invariant Coherent() && answers + Uncached(jvm, ops[i..]) == Uncached(old(jvm), ops)
      {
        UncachedStep(jvm, ops, i);
        var more := Perform(ops[i]);
        assert answers + (more + Uncached(jvm, ops[i + 1..])) == answers + more + Uncached(jvm, ops[i + 1..]);
        answers := answers + more;
      }
      assert ops[|ops|..] == [] && answers + [] == answers;
    }
  }

  lemma OthersUnchanged(jvm: Jvm, types: seq<TypeKey>, facts: map<TypeKey, Facts>)
    ensures forall id :: id !in types ==>
      && About(Redefined(jvm, types, facts), id) == About(jvm, id)
      && AskFields(Redefined(jvm, types, facts), id) == AskFields(jvm, id)
      && AskMethods(Redefined(jvm, types, facts), id) == AskMethods(jvm, id)
      && AskSuperclass(Redefined(jvm, types, facts), id) == AskSuperclass(jvm, id)
  {
  }

  lemma UncachedStep(jvm: Jvm, ops: seq<Op>, i: nat)
    requires i < |ops|
    ensures Uncached(jvm, ops[i..])
            == (if ops[i].Read? then [Ask(jvm, ops[i].query)] else []) + Uncached(JvmAfter(jvm, ops[i]), ops[i + 1..])
  {
    assert ops[i..][0] == ops[i] && ops[i..][1..] == ops[i + 1..];
  }
}
