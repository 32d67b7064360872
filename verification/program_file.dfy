/** The metadata of one package entry in a compiled program file (`PackageInfo`): an interning
    constant pool, name-keyed registries of type definitions and services that also feed a
    shared structure-type registry, and one attribute per attribute kind. */
module ProgramFile {
  import opened Options
  import Sequences

  /** `java.util.LinkedHashMap` keyed by names: a map that also remembers the order in which
      its keys were first put. */
  datatype LinkedMap<V> = LinkedMap(order: seq<string>, entries: map<string, V>) {

    ghost predicate Valid() {
      && Sequences.NoDuplicates(order)
      && (forall k :: k in entries <==> k in order)
    }

    /** `put`: the key now maps to `v`; a new key joins the end of the iteration order and
        an existing key keeps its place. */
    function Put(k: string, v: V): (m: LinkedMap<V>)
      ensures Valid() ==> m.Valid()
      ensures k in m.entries && m.entries[k] == v
      ensures forall n :: n != k ==> (n in m.entries <==> n in entries)
      ensures forall n :: n != k && n in entries ==> m.entries[n] == entries[n]
    {
      LinkedMap(if k in entries then order else order + [k], entries[k := v])
    }

    /** `values()`: the values in key-insertion order. */
    function Values(): (vs: seq<V>)
      requires Valid()
      ensures |vs| == |entries|
    {
      assert |entries.Keys| == |order| by { OrderCoversKeys(); }
      seq(|order|, i requires 0 <= i < |order| => entries[order[i]])
    }

    /** How `put` changes `values()`: a known key's value is replaced in place, a new key's
        value is appended. */
    lemma PutValues(k: string, v: V)
      requires Valid()
      ensures var vs, vs' := Values(), Put(k, v).Values();
              if k in entries then
                var i := Sequences.IndexOf(order, k);
                0 <= i < |vs| && vs' == vs[i := v]
              else
                vs' == vs + [v]
    {
      var m := Put(k, v);
      var vs, vs' := Values(), m.Values();
      if k in entries {
        var i := Sequences.IndexOf(order, k);
        assert |vs'| == |vs| && 0 <= i < |vs|;
        forall j | 0 <= j < |vs'| ensures vs'[j] == vs[i := v][j] {
          if j != i {
            assert order[j] != k;
          }
        }
      } else {
        assert |vs'| == |vs| + 1;
        forall j | 0 <= j < |vs'| ensures vs'[j] == (vs + [v])[j] {
        }
      }
    }

    lemma OrderCoversKeys()
      requires Valid()
      ensures |entries.Keys| == |order|
    {
      NoDuplicatesCardinality(order);
      assert entries.Keys == set k | k in order;
    }
  }

  /** A sequence without repetitions has as many distinct elements as positions. */
  lemma {:induction false} NoDuplicatesCardinality(s: seq<string>)
    requires Sequences.NoDuplicates(s)
    ensures |set k | k in s| == |s|
    decreases |s|
  {
    if |s| > 0 {
      var prefix := s[..|s| - 1];
      NoDuplicatesCardinality(prefix);
      assert (set k | k in s) == (set k | k in prefix) + {s[|s| - 1]};
      assert s[|s| - 1] !in prefix;
    }
  }

  /** `pool` holds exactly the values of `entries`, each once, ordered by where each value first
      occurs in `entries`. */
  ghost predicate OrderedByFirstOccurrence<E(!new)>(pool: seq<E>, entries: seq<E>) {
    && (forall x :: x in pool <==> x in entries)
    && (forall i, j :: 0 <= i < j < |pool| ==>
          Sequences.IndexOf(entries, pool[i]) < Sequences.IndexOf(entries, pool[j]))
  }

  /** One interning step keeps the first-occurrence order: the pool either stays as it is
      (the value was seen before) or grows by the value at its end (it is new). */
  lemma FirstOccurrenceOrderStep<E(!new)>(pool: seq<E>, prefix: seq<E>, last: E, pool': seq<E>)
    requires OrderedByFirstOccurrence(pool, prefix)
    requires (last in pool && pool' == pool) || (last !in pool && pool' == pool + [last])
    ensures OrderedByFirstOccurrence(pool', prefix + [last])
  {
    var entries := prefix + [last];
    forall x | x in pool'
      ensures Sequences.IndexOf(entries, x) == if x in prefix then Sequences.IndexOf(prefix, x) else |prefix|
    {
      Sequences.IndexOfAppend(prefix, last, x);
    }
    forall i, j | 0 <= i < j < |pool'|
      ensures Sequences.IndexOf(entries, pool'[i]) < Sequences.IndexOf(entries, pool'[j])
    {
      assert pool'[i] == pool[i];
      if j < |pool| {
        assert pool'[j] == pool[j];
      }
    }
  }

  /** A value of the shared structure-type registry: either a type definition or a service. */
  datatype StructureTypeInfo<T, S> = TypeDefStructure(typeDef: T) | ServiceStructure(service: S)

  /** The package entry, generic in the constant-pool entry type `E`, the type-definition info
      `T`, the service info `S`, the attribute kind `K` and the attribute info `A`. */
  datatype PackageInfo<E(==,!new), T, S, K(==,!new), A> = PackageInfo(
    constantPoolEntries: seq<E>,
    typeDefInfoMap: LinkedMap<T>,
    serviceInfoMap: map<string, S>,
    structureTypeInfoMap: map<string, StructureTypeInfo<T, S>>,
    attributeInfoMap: map<K, A>)
  {

    /** The representation invariant every package entry keeps as long as the registries are
        written only through the `Add…` operations below. The type-definition and service
        registries are public fields in the program, so a caller writing to them directly
        bypasses the structure registry; such writes are outside this model. */
    ghost predicate Valid() {
      && Sequences.NoDuplicates(constantPoolEntries)
      && typeDefInfoMap.Valid()
      && structureTypeInfoMap.Keys == typeDefInfoMap.entries.Keys + serviceInfoMap.Keys
    }

    /** `addCPEntry`: interns `cpEntry`. An entry already in the pool is not added again and its
        first index is returned; a new entry is appended and its index is the old pool size. */
    function AddCPEntry(cpEntry: E): (r: (PackageInfo<E, T, S, K, A>, int))
      ensures Valid() ==> r.0.Valid()
      ensures 0 <= r.1 < |r.0.constantPoolEntries| && r.0.constantPoolEntries[r.1] == cpEntry
      ensures cpEntry in constantPoolEntries ==> r.0 == this && cpEntry !in constantPoolEntries[..r.1]
      ensures cpEntry !in constantPoolEntries ==>
                && r.0 == this.(constantPoolEntries := constantPoolEntries + [cpEntry])
                && r.1 == |constantPoolEntries|
    {
      if cpEntry in constantPoolEntries then
        (this, GetCPEntryIndex(cpEntry))
      else
        (this.(constantPoolEntries := constantPoolEntries + [cpEntry]), |constantPoolEntries|)
    }

    /** `getCPEntry`: the entry at `index`; `None` stands for the `IndexOutOfBoundsException`
        the list throws for an index outside the pool. */
    function GetCPEntry(index: int): (r: Option<E>)
      ensures r.Some? <==> 0 <= index < |constantPoolEntries|
      ensures r.Some? ==> r.value == constantPoolEntries[index]
    {
      if 0 <= index < |constantPoolEntries| then Some(constantPoolEntries[index]) else None
    }

    /** `getCPEntryIndex`: the index of the first entry equal to `cpEntry`, or -1. */
    function GetCPEntryIndex(cpEntry: E): (i: int)
      ensures -1 <= i < |constantPoolEntries|
      ensures i == -1 <==> cpEntry !in constantPoolEntries
      ensures 0 <= i ==> constantPoolEntries[i] == cpEntry && cpEntry !in constantPoolEntries[..i]
    {
      Sequences.IndexOf(constantPoolEntries, cpEntry)
    }

    /** Looking an entry up right after interning it finds it at the index `addCPEntry` returned. */
    lemma AddedEntryIsFound(cpEntry: E)
      ensures var (p, i) := AddCPEntry(cpEntry);
              p.GetCPEntryIndex(cpEntry) == i && p.GetCPEntry(i) == Some(cpEntry)
    {
    }

    /** One interning step seen from the pool: the old pool is a prefix of the new one and the
        new pool holds the old entries plus the interned one. */
    lemma AddCPEntryExtendsPool(cpEntry: E)
      ensures var pool := AddCPEntry(cpEntry).0.constantPoolEntries;
              && |constantPoolEntries| <= |pool|
              && pool[..|constantPoolEntries|] == constantPoolEntries
              && (forall x :: x in pool <==> x in constantPoolEntries || x == cpEntry)
    {
    }

    /** One interning step, seen from the pool alone: unchanged for a known entry, extended by
        the entry for a new one. */
    lemma InternStep(cpEntry: E)
      ensures var pool, pool' := constantPoolEntries, AddCPEntry(cpEntry).0.constantPoolEntries;
              || (cpEntry in pool && pool' == pool)
              || (cpEntry !in pool && pool' == pool + [cpEntry])
    {
    }

    /** Interning the entries one after another, left to right (a caller's loop of
        `addCPEntry` calls); the second component lists the index each call returned. */
    function AddCPEntries(entries: seq<E>): (r: (PackageInfo<E, T, S, K, A>, seq<int>))
      decreases |entries|
    {
      if |entries| == 0 then (this, [])
      else
        var (p, indices) := AddCPEntries(entries[..|entries| - 1]);
        var (q, i) := p.AddCPEntry(entries[|entries| - 1]);
        (q, indices + [i])
    }

    /** Interning a list of entries into any valid pool: the pool stays free of duplicates, the
        old entries keep their indices, and the pool holds exactly the old entries and the new ones. */
    lemma {:induction false} AddCPEntriesKeepsPoolValid(entries: seq<E>)
      requires Valid()
      ensures var p := AddCPEntries(entries).0;
              && p.Valid()
              && |constantPoolEntries| <= |p.constantPoolEntries|
              && p.constantPoolEntries[..|constantPoolEntries|] == constantPoolEntries
              && (forall x :: x in p.constantPoolEntries <==> x in constantPoolEntries || x in entries)
      decreases |entries|
    {
      if |entries| > 0 {
        var prefix, last := entries[..|entries| - 1], entries[|entries| - 1];
        AddCPEntriesKeepsPoolValid(prefix);
        var p := AddCPEntries(prefix).0;
        var q := p.AddCPEntry(last).0;
        assert AddCPEntries(entries).0 == q;
        p.AddCPEntryExtendsPool(last);
        var oldPool, pool, pool' := constantPoolEntries, p.constantPoolEntries, q.constantPoolEntries;
        assert pool'[..|oldPool|] == oldPool by {
          assert pool'[..|oldPool|] == pool'[..|pool|][..|oldPool|];
        }
        assert forall x :: x in entries <==> x in prefix || x == last by {
          assert entries == prefix + [last];
        }
      }
    }

    /** Each index returned while interning a list locates, in the final pool, the entry that was
        passed: later calls never move an entry. */
    lemma {:induction false} AddCPEntriesReturnsIndices(entries: seq<E>)
      ensures var (p, indices) := AddCPEntries(entries);
              && |indices| == |entries|
              && (forall k :: 0 <= k < |entries| ==>
                    0 <= indices[k] < |p.constantPoolEntries| && p.constantPoolEntries[indices[k]] == entries[k])
      decreases |entries|
    {
      if |entries| > 0 {
        var prefix, last := entries[..|entries| - 1], entries[|entries| - 1];
        AddCPEntriesReturnsIndices(prefix);
        var (p, indices) := AddCPEntries(prefix);
        var (q, i) := p.AddCPEntry(last);
        assert AddCPEntries(entries) == (q, indices + [i]);
        p.AddCPEntryExtendsPool(last);
        var pool, pool' := p.constantPoolEntries, q.constantPoolEntries;
        forall k | 0 <= k < |entries|
          ensures 0 <= (indices + [i])[k] < |pool'| && pool'[(indices + [i])[k]] == entries[k]
        {
          if k < |prefix| {
            assert entries[k] == prefix[k];
            assert pool'[indices[k]] == pool'[..|pool|][indices[k]];
          }
        }
      }
    }

    /** Interning into an empty pool yields the distinct entries ordered by first occurrence:
        an entry that occurs earlier in the input gets a smaller index. */
    lemma {:induction false} AddCPEntriesFirstOccurrenceOrder(entries: seq<E>)
      requires |constantPoolEntries| == 0
      ensures OrderedByFirstOccurrence(AddCPEntries(entries).0.constantPoolEntries, entries)
      decreases |entries|
    {
      if |entries| > 0 {
        var prefix, last := entries[..|entries| - 1], entries[|entries| - 1];
        AddCPEntriesFirstOccurrenceOrder(prefix);
        var p := AddCPEntries(prefix).0;
        var q := p.AddCPEntry(last).0;
        assert AddCPEntries(entries).0 == q;
        p.InternStep(last);
        FirstOccurrenceOrderStep(p.constantPoolEntries, prefix, last, q.constantPoolEntries);
        assert prefix + [last] == entries;
      }
    }

    /** `getConstPoolEntries`: a copy of the pool, in index order. */
    function GetConstPoolEntries(): (entries: seq<E>)
      ensures |entries| == |constantPoolEntries|
      ensures forall i :: 0 <= i < |entries| ==> GetCPEntry(i) == Some(entries[i])
    {
      constantPoolEntries
    }

    /** `addTypeDefInfo`: registers the type definition under its name both in the type-definition
        registry and in the structure-type registry; nothing else changes. */
    function AddTypeDefInfo(typeDefinitionName: string, typeDefInfo: T): (r: PackageInfo<E, T, S, K, A>)
      ensures Valid() ==> r.Valid()
      ensures r.typeDefInfoMap == typeDefInfoMap.Put(typeDefinitionName, typeDefInfo)
      ensures r.structureTypeInfoMap == structureTypeInfoMap[typeDefinitionName := TypeDefStructure(typeDefInfo)]
      ensures r.constantPoolEntries == constantPoolEntries
      ensures r.serviceInfoMap == serviceInfoMap && r.attributeInfoMap == attributeInfoMap
    {
      this.(typeDefInfoMap := typeDefInfoMap.Put(typeDefinitionName, typeDefInfo),
            structureTypeInfoMap := structureTypeInfoMap[typeDefinitionName := TypeDefStructure(typeDefInfo)])
    }

    /** `getTypeDefInfoEntries`: the registered type definitions in name-insertion order. */
    function GetTypeDefInfoEntries(): (infos: seq<T>)
      requires Valid()
      ensures |infos| == |typeDefInfoMap.entries|
    {
      typeDefInfoMap.Values()
    }

    /** Re-registering a known name keeps its place in `getTypeDefInfoEntries` and replaces its
        info there; a new name's info is appended. */
    lemma TypeDefEntriesInInsertionOrder(typeDefinitionName: string, typeDefInfo: T)
      requires Valid()
      ensures var entries, entries' := GetTypeDefInfoEntries(),
                                       AddTypeDefInfo(typeDefinitionName, typeDefInfo).GetTypeDefInfoEntries();
              if typeDefinitionName in typeDefInfoMap.entries then
                var i := Sequences.IndexOf(typeDefInfoMap.order, typeDefinitionName);
                0 <= i < |entries| && entries' == entries[i := typeDefInfo]
              else
                entries' == entries + [typeDefInfo]
    {
      typeDefInfoMap.PutValues(typeDefinitionName, typeDefInfo);
    }

    /** `getServiceInfo`: the service registered under the name; `None` for Java's `null`. */
    function GetServiceInfo(serviceName: string): (r: Option<S>)
      ensures r.Some? <==> serviceName in serviceInfoMap
      ensures r.Some? ==> r.value == serviceInfoMap[serviceName]
    {
      if serviceName in serviceInfoMap then Some(serviceInfoMap[serviceName]) else None
    }

    /** `addServiceInfo`: registers the service under its name both in the service registry and
        in the structure-type registry; nothing else changes. */
    function AddServiceInfo(serviceName: string, serviceInfo: S): (r: PackageInfo<E, T, S, K, A>)
      ensures Valid() ==> r.Valid()
      ensures r.serviceInfoMap == serviceInfoMap[serviceName := serviceInfo]
      ensures r.structureTypeInfoMap == structureTypeInfoMap[serviceName := ServiceStructure(serviceInfo)]
      ensures r.constantPoolEntries == constantPoolEntries
      ensures r.typeDefInfoMap == typeDefInfoMap && r.attributeInfoMap == attributeInfoMap
    {
      this.(serviceInfoMap := serviceInfoMap[serviceName := serviceInfo],
            structureTypeInfoMap := structureTypeInfoMap[serviceName := ServiceStructure(serviceInfo)])
    }

    /** After `addServiceInfo(n, s)`, `getServiceInfo(n)` is `s`, other names answer as before, and
        the structure-type registry holds the service under `n`. */
    lemma ServiceLookupAfterAdd(serviceName: string, serviceInfo: S, other: string)
      requires other != serviceName
      ensures var r := AddServiceInfo(serviceName, serviceInfo);
              && r.GetServiceInfo(serviceName) == Some(serviceInfo)
              && r.GetServiceInfo(other) == GetServiceInfo(other)
              && r.structureTypeInfoMap[serviceName] == ServiceStructure(serviceInfo)
    {
    }

    /** `getAttributeInfo`: the attribute of the given kind; `None` for Java's `null`. */
    function GetAttributeInfo(attributeKind: K): (r: Option<A>)
      ensures r.Some? <==> attributeKind in attributeInfoMap
      ensures r.Some? ==> r.value == attributeInfoMap[attributeKind]
    {
      if attributeKind in attributeInfoMap then Some(attributeInfoMap[attributeKind]) else None
    }

    /** `addAttributeInfo`: stores the attribute under its kind, replacing any earlier one. */
    function AddAttributeInfo(attributeKind: K, attributeInfo: A): (r: PackageInfo<E, T, S, K, A>)
      ensures r.GetAttributeInfo(attributeKind) == Some(attributeInfo)
      ensures forall k :: k != attributeKind ==> r.GetAttributeInfo(k) == GetAttributeInfo(k)
      ensures r.constantPoolEntries == constantPoolEntries && r.typeDefInfoMap == typeDefInfoMap
      ensures r.serviceInfoMap == serviceInfoMap && r.structureTypeInfoMap == structureTypeInfoMap
    {
      this.(attributeInfoMap := attributeInfoMap[attributeKind := attributeInfo])
    }
  }

  /** A freshly constructed package entry: an empty pool and empty registries. */
  function NewPackageInfo<E(==,!new), T, S, K(==,!new), A>(): (p: PackageInfo<E, T, S, K, A>)
    ensures p.Valid()
    ensures |p.constantPoolEntries| == 0
    ensures p.typeDefInfoMap.entries == map[] && |p.typeDefInfoMap.order| == 0
    ensures p.serviceInfoMap == map[] && p.structureTypeInfoMap == map[] && p.attributeInfoMap == map[]
  {
    PackageInfo([], LinkedMap([], map[]), map[], map[], map[])
  }
}
