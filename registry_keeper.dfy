/**
 * x/registry/keeper.go: the record store, keyed by record ID, with listing
 * by namespace and deletion of one or all records.
 */
module RegistryKeeper {
  import opened Sdk
  import opened KeyOrder
  import opened RegistryMsgs

  /** The record's `"namespace"` attribute holds a string equal to `ns`. */
  predicate InNamespace(r: Record, ns: Bytes) {
    NamespaceKey in r.attributes && r.attributes[NamespaceKey] == AttrString(ns)
  }

  /** What the listing keeps: everything without a namespace, otherwise
      the records in that namespace. */
  predicate Selected(r: Record, namespace: Option<Bytes>) {
    namespace.None? || InNamespace(r, namespace.value)
  }

  /** The records of `rs` that are selected, in their order. */
  function Select(rs: seq<Record>, namespace: Option<Bytes>): seq<Record>
    decreases |rs|
  {
    if rs == [] then []
    else Select(rs[..|rs| - 1], namespace) + (if Selected(rs[|rs| - 1], namespace) then [rs[|rs| - 1]] else [])
  }

  /** Selection keeps exactly the selected records, keeps everything when no
      namespace is given, and never makes the list longer. */
  lemma {:induction false} SelectSpec(rs: seq<Record>, namespace: Option<Bytes>)
    ensures forall r :: r in Select(rs, namespace) <==> r in rs && Selected(r, namespace)
    ensures namespace.None? ==> Select(rs, namespace) == rs
    ensures |Select(rs, namespace)| <= |rs|
    decreases |rs|
  {
    if rs != [] {
      var init := rs[..|rs| - 1];
      SelectSpec(init, namespace);
      assert rs == init + [rs[|rs| - 1]];
    }
  }

  /** Selecting one more element of a prefix. */
  lemma SelectSnoc(rs: seq<Record>, i: nat, namespace: Option<Bytes>)
    requires i < |rs|
    ensures Select(rs[..i + 1], namespace) ==
            Select(rs[..i], namespace) + (if Selected(rs[i], namespace) then [rs[i]] else [])
  {
    assert rs[..i + 1][..i] == rs[..i] && rs[..i + 1][i] == rs[i];
  }

  /** Selection keeps no record twice when the input has none twice. */
  lemma {:induction false} SelectDistinct(rs: seq<Record>, namespace: Option<Bytes>)
    requires forall i, j :: 0 <= i < j < |rs| ==> rs[i] != rs[j]
    ensures forall i, j :: 0 <= i < j < |Select(rs, namespace)| ==> Select(rs, namespace)[i] != Select(rs, namespace)[j]
    decreases |rs|
  {
    if rs != [] {
      var init := rs[..|rs| - 1];
      var last := rs[|rs| - 1];
      SelectDistinct(init, namespace);
      SelectSpec(init, namespace);
      forall i | 0 <= i < |init| ensures init[i] != last {
        assert init[i] == rs[i];
      }
    }
  }

  /** Each record sits under its own ID. */
  ghost predicate IdKeysMatch(m: map<Bytes, Record>) {
    forall id :: id in m ==> m[id].id == id
  }

  /** With each record under its own ID, `ListResources` yields exactly the
      stored records in the namespace, each once. */
  lemma ListResourcesSpec(m: map<Bytes, Record>, namespace: Option<Bytes>)
    requires IdKeysMatch(m)
    ensures forall r :: r in Select(InKeyOrder(m), namespace) <==> r in m.Values && Selected(r, namespace)
    ensures var l := Select(InKeyOrder(m), namespace);
      forall i, j :: 0 <= i < j < |l| ==> l[i] != l[j]
    ensures namespace.None? ==> |Select(InKeyOrder(m), namespace)| == |m|
  {
    InKeyOrderSpec(m);
    InKeyOrderDistinct(m, (r: Record) => r.id);
    SelectSpec(InKeyOrder(m), namespace);
    SelectDistinct(InKeyOrder(m), namespace);
    assert |m.Keys| == |m|;
  }

  class Keeper {
    var records: map<Bytes, Record>

    constructor ()
      ensures records == map[]
    {
      records := map[];
    }

    /** `PutResource`: stores the record under its ID, overwriting. */
    method PutResource(record: Record)
      modifies this
      ensures records == old(records)[record.id := record]
      ensures record.id in records && records[record.id] == record
      ensures forall id :: id != record.id ==> (id in records <==> id in old(records))
      ensures forall id :: id != record.id && id in records ==> records[id] == old(records)[id]
    {
      records := records[record.id := record];
    }

    method HasResource(id: Bytes) returns (b: bool)
      ensures b <==> id in records
    {
      b := id in records;
    }

    /** `GetResource`: the record under the ID; `None` where decoding the
        missing value fails. */
    method GetResource(id: Bytes) returns (r: Option<Record>)
      ensures r.Some? <==> id in records
      ensures r.Some? ==> r.value == records[id]
    {
      r := if id in records then Some(records[id]) else None;
    }

    /** `ListResources`: walks the store in key order and keeps the records
        the namespace selects. */
    method ListResources(namespace: Option<Bytes>) returns (result: seq<Record>)
      ensures result == Select(InKeyOrder(records), namespace)
    {
      var keys := Iterate(records.Keys);
      InKeyOrderSpec(records);
      ghost var all := InKeyOrder(records);
      result := [];
      for i := 0 to |keys|
        invariant result == Select(all[..i], namespace)
      {
        var record := records[keys[i]];
        SelectSnoc(all, i, namespace);
        if Selected(record, namespace) {
          result := result + [record];
        }
      }
      assert all[..|keys|] == all;
    }

    /** `DeleteResource`: removes that ID and nothing else. */
    method DeleteResource(id: Bytes)
      modifies this
      ensures records == old(records) - {id}
      ensures id !in records
      ensures forall other :: other != id ==> (other in records <==> other in old(records))
      ensures forall other :: other != id && other in records ==> records[other] == old(records)[other]
    {
      records := records - {id};
    }

    /** `ClearResources`: deletes every key the iterator visits. */
    method ClearResources()
      modifies this
      ensures records == map[]
    {
      var keys := Iterate(records.Keys);
      SortedKeysSpec(records.Keys);
      assert keys[0..] == keys;
      for i := 0 to |keys|
        invariant forall id :: id in records ==> id in keys[i..]
      {
        DeleteNextKey(records, keys, i);
        records := records - {keys[i]};
      }
      assert records.Keys == {};
    }
  }
}
