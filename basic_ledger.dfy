/** The earlier, non-deduplicating intake ledger of app/main.py.

    It keeps one table, `imports`, from import id to record. Every upload
    is accepted, whatever its size or content, and gets a fresh id (supplied
    by the caller, standing in for uuid4) and one new record; the status
    query returns the record stored under an id, or NotFound.

    Create and Find specify one call on the table; the class Ledger holds
    the table as a mutable field and is proved to follow them. */
module BasicLedger {
  import opened Common

  datatype Record = Record(status: string, filename: string, size: nat, errors: seq<string>)

  /** The record an upload creates. */
  function NewRecord(filename: string, content: Bytes): Record
  {
    Record(StatusReceived, filename, |content|, [])
  }

  /** One upload: an unconditional insert under the fresh id. */
  function Create(imports: map<string, Record>, filename: string, content: Bytes,
                  freshId: string): map<string, Record>
    requires freshId !in imports
  {
    imports[freshId := NewRecord(filename, content)]
  }

  /** The status query: the record stored under the id, or NotFound. */
  function Find(imports: map<string, Record>, iid: string): (r: Result<Record>)
    ensures r.Ok? <==> iid in imports
    ensures r.Ok? ==> r.value == imports[iid]
    ensures r.Err? ==> r.error == NotFound
  {
    if iid in imports then Ok(imports[iid]) else Err(NotFound)
  }

  /** Every record is still in its initial state: received, no errors. */
  ghost predicate AllReceived(imports: map<string, Record>)
  {
    forall iid | iid in imports :: imports[iid].status == StatusReceived && imports[iid].errors == []
  }

  /** Every upload adds exactly one record, under the fresh id, and leaves
      the existing records unchanged. */
  lemma CreateAddsOneRecord(imports: map<string, Record>, filename: string, content: Bytes,
                            freshId: string)
    requires freshId !in imports
    ensures var imports' := Create(imports, filename, content, freshId);
            && imports'.Keys == imports.Keys + {freshId}
            && |imports'| == |imports| + 1
            && forall iid | iid in imports :: imports'[iid] == imports[iid]
  {
    var imports' := Create(imports, filename, content, freshId);
    assert imports'.Keys == imports.Keys + {freshId};
  }

  /** The stored record is received, carries the filename and the content
      length and no errors; the status query returns it. */
  lemma CreateThenFind(imports: map<string, Record>, filename: string, content: Bytes,
                       freshId: string)
    requires freshId !in imports
    ensures Find(Create(imports, filename, content, freshId), freshId)
            == Ok(Record(StatusReceived, filename, |content|, []))
  {
  }

  /** There is no deduplication: the same upload twice gives two distinct
      ids and two records with equal contents. */
  lemma NoDeduplication(imports: map<string, Record>, filename: string, content: Bytes,
                        id1: string, id2: string)
    requires id1 !in imports && id2 !in imports && id1 != id2
    ensures var first := Create(imports, filename, content, id1);
            && id2 !in first
            && var second := Create(first, filename, content, id2);
            && |second| == |imports| + 2
            && Find(second, id1).Ok? && Find(second, id2).Ok?
            && Find(second, id1).value == Find(second, id2).value
  {
    CreateAddsOneRecord(imports, filename, content, id1);
    CreateAddsOneRecord(Create(imports, filename, content, id1), filename, content, id2);
  }

  /** Uploads only ever create records in the initial state. */
  lemma CreatePreservesAllReceived(imports: map<string, Record>, filename: string, content: Bytes,
                                   freshId: string)
    requires freshId !in imports
    requires AllReceived(imports)
    ensures AllReceived(Create(imports, filename, content, freshId))
  {
  }

  /** The module-level table of the service and the operations on it. */
  class Ledger {
    var imports: map<string, Record>

    ghost predicate Valid()
      reads this
    {
      AllReceived(imports)
    }

    constructor ()
      ensures Valid() && imports == map[]
    {
      imports := map[];
    }

    /** create_import: the upload endpoint; it answers the new id. */
    method CreateImport(filename: string, content: Bytes, freshId: string) returns (iid: string)
      requires Valid()
      requires freshId !in imports
      modifies this
      ensures Valid()
      ensures iid == freshId
      ensures imports == Create(old(imports), filename, content, freshId)
    {
      iid := freshId;
      imports := imports[iid := Record(StatusReceived, filename, |content|, [])];
    }

    /** get_import: the status query; it changes nothing. */
    method GetImport(iid: string) returns (r: Result<Record>)
      ensures r == Find(imports, iid)
    {
      if iid in imports {
        r := Ok(imports[iid]);
      } else {
        r := Err(NotFound);
      }
    }
  }
}
